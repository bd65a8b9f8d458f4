/** What a projection may be relied on for. */
module ClaimTheorems {

  import opened Wrappers
  import opened Ordered
  import opened ClaimHistories
  import opened ClaimProjection

  // --------------------------------------------------- what a view depends on

  /** Two histories that hold the same within a bound on knowledge. Appending beyond the
      bound, and writing the same relations and retractions in another order, are both
      ways to get two such histories. */
  ghost predicate SameKnowledge(a: History, b: History, k: TxBound) {
    && (forall c | c in a.claims && WithinTx(a.claims[c].tx, k) :: c in b.claims && b.claims[c] == a.claims[c])
    && (forall c | c in b.claims && WithinTx(b.claims[c].tx, k) :: c in a.claims && a.claims[c] == b.claims[c])
    && (forall r: Relation | WithinTx(r.tx, k) :: r in a.relations <==> r in b.relations)
    && (forall t: Retraction | WithinTx(t.tx, k) :: t in a.retractions <==> t in b.retractions)
  }

  ghost predicate Alike(p: Question, q: Question) {
    p.knowledge == q.knowledge && p.query == q.query && p.policy == q.policy && SameKnowledge(p.h, q.h, p.knowledge)
  }

  /** `s` is read the same way by both. */
  ghost predicate SameOn(p: Question, q: Question, s: set<ClaimId>) {
    forall c | c in s :: c in p.h.claims && c in q.h.claims && p.h.claims[c] == q.h.claims[c]
  }

  lemma {:induction false} SameStanding(p: Question, q: Question, slot: SlotId, zones: Zones)
    requires Alike(p, q)
    ensures CandidatesOf(p, slot, zones) == CandidatesOf(q, slot, zones)
    ensures StandingOf(p, slot, zones) == StandingOf(q, slot, zones)
    ensures SameOn(p, q, CandidatesOf(p, slot, zones))
  {
    forall c ensures c in CandidatesOf(p, slot, zones) <==> c in CandidatesOf(q, slot, zones) {
    }
    forall c ensures c in RetractedIds(p) <==> c in RetractedIds(q) {
      if c in RetractedIds(p) {
        var t :| t in p.h.retractions && WithinTx(t.tx, p.knowledge) && t.target == c;
        assert t in q.h.retractions;
      }
      if c in RetractedIds(q) {
        var t :| t in q.h.retractions && WithinTx(t.tx, q.knowledge) && t.target == c;
        assert t in p.h.retractions;
      }
    }
    assert RetractedIds(p) == RetractedIds(q);
  }

  lemma {:induction false} SameRemovals(p: Question, q: Question, s: set<ClaimId>, r: Relation)
    requires Alike(p, q) && SameOn(p, q, s)
    ensures r in p.h.relations && Removes(p, s, r) <==> r in q.h.relations && Removes(q, s, r)
  {
  }

  lemma {:induction false} SameKept(p: Question, q: Question, slot: SlotId, zones: Zones)
    requires Alike(p, q)
    ensures KeptOf(p, slot, zones) == KeptOf(q, slot, zones) && SameOn(p, q, KeptOf(p, slot, zones))
  {
    SameStanding(p, q, slot, zones);
    var s := StandingOf(p, slot, zones);
    forall c ensures c in RemovedFrom(p, s) <==> c in RemovedFrom(q, s) {
      if c in RemovedFrom(p, s) {
        var r :| r in p.h.relations && Removes(p, s, r) && r.target.value == c;
        SameRemovals(p, q, s, r);
      }
      if c in RemovedFrom(q, s) {
        var r :| r in q.h.relations && Removes(q, s, r) && r.target.value == c;
        SameRemovals(p, q, s, r);
      }
    }
    assert RemovedFrom(p, s) == RemovedFrom(q, s);
  }

  lemma {:induction false} SameTop(p: Question, q: Question, s: set<ClaimId>)
    requires SameOn(p, q, s) && Claims(p, s) && Claims(q, s)
    ensures Contested(p, s) == Contested(q, s) && TopOf(p, s) == TopOf(q, s)
    ensures OrdersBySource(p, TopOf(p, s)) == OrdersBySource(q, TopOf(q, s)) && ComparedAmong(p, s) == ComparedAmong(q, s)
  {
  }

  lemma {:induction false} SameWinners(p: Question, q: Question, slot: SlotId, zones: Zones)
    requires Alike(p, q)
    ensures WinnersOf(p, slot, zones) == WinnersOf(q, slot, zones)
    ensures ComparedAmong(p, KeptOf(p, slot, zones)) == ComparedAmong(q, KeptOf(q, slot, zones))
    ensures SameOn(p, q, WinnersOf(p, slot, zones))
  {
    SameKept(p, q, slot, zones);
    var kept := KeptOf(p, slot, zones);
    SameTop(p, q, kept);
    assert UndominatedOf(p, TopOf(p, kept), zones) == UndominatedOf(q, TopOf(q, kept), zones);
  }

  lemma {:induction false} SameSuperseded(p: Question, q: Question, standing: set<ClaimId>, compared: set<ClaimId>, c: ClaimId, zones: Zones)
    requires Alike(p, q) && SameOn(p, q, standing) && SameOn(p, q, compared) && Claims(p, compared) && Claims(q, compared)
    requires c in p.h.claims && c in q.h.claims && p.h.claims[c] == q.h.claims[c]
    ensures SupersededBy(p, standing, compared, c, zones) == SupersededBy(q, standing, compared, c, zones)
  {
    forall d ensures d in SupersededBy(p, standing, compared, c, zones) <==> d in SupersededBy(q, standing, compared, c, zones) {
      if r :| r in p.h.relations && Removes(p, standing, r) && r.from == c && r.target.value == d {
        SameRemovals(p, q, standing, r);
      }
      if r :| r in q.h.relations && Removes(q, standing, r) && r.from == c && r.target.value == d {
        SameRemovals(p, q, standing, r);
      }
    }
  }

  lemma {:induction false} SameCandidates(p: Question, q: Question, standing: set<ClaimId>, compared: set<ClaimId>, ids: seq<ClaimId>, zones: Zones)
    requires Alike(p, q) && SameOn(p, q, standing) && SameOn(p, q, compared) && Claims(p, compared) && Claims(q, compared)
    requires forall c | c in ids :: c in p.h.claims && c in q.h.claims && p.h.claims[c] == q.h.claims[c]
    requires Counted(p, ids, zones) && Counted(q, ids, zones)
    ensures CandidateList(p, standing, compared, ids, zones) == CandidateList(q, standing, compared, ids, zones)
    decreases |ids|
  {
    if ids != [] {
      SameSuperseded(p, q, standing, compared, ids[0], zones);
      SameCandidates(p, q, standing, compared, ids[1..], zones);
    }
  }

  lemma {:induction false} SameAmong(p: Question, q: Question, kept: set<ClaimId>, zones: Zones)
    requires SameOn(p, q, kept) && Claims(p, kept) && Claims(q, kept)
    ensures WinnersAmong(p, kept, zones) == WinnersAmong(q, kept, zones)
    ensures Agree(p, WinnersAmong(p, kept, zones)) == Agree(q, WinnersAmong(q, kept, zones))
  {
    SameTop(p, q, kept);
    assert UndominatedOf(p, TopOf(p, kept), zones) == UndominatedOf(q, TopOf(q, kept), zones);
  }

  lemma {:induction false} SameList(p: Question, q: Question, standing: set<ClaimId>, compared: set<ClaimId>, winners: set<ClaimId>, zones: Zones)
    requires Alike(p, q) && SameOn(p, q, standing) && compared <= standing && winners <= standing
    requires AllCount(p, standing, zones) && AllCount(q, standing, zones)
    ensures Claims(p, compared) && Claims(q, compared)
    ensures Counted(p, Ascending(winners), zones) && Counted(q, Ascending(winners), zones)
    ensures CandidateList(p, standing, compared, Ascending(winners), zones) == CandidateList(q, standing, compared, Ascending(winners), zones)
  {
    SubsetCounts(p, standing, winners, zones);
    SubsetCounts(q, standing, winners, zones);
    AscendingLists(winners);
    forall c | c in Ascending(winners) ensures c in winners {
      assert c in Elements(Ascending(winners));
    }
    SameCandidates(p, q, standing, compared, Ascending(winners), zones);
  }

  lemma {:induction false} SameReport(p: Question, q: Question, standing: set<ClaimId>, compared: set<ClaimId>, winners: set<ClaimId>, zones: Zones)
    requires Alike(p, q) && SameOn(p, q, standing) && compared <= standing && winners <= standing
    requires AllCount(p, standing, zones) && AllCount(q, standing, zones)
    ensures Reported(p, standing, compared, winners, zones) == Reported(q, standing, compared, winners, zones)
  {
    SameList(p, q, standing, compared, winners, zones);
  }

  lemma {:induction false} SameReportFrom(p: Question, q: Question, standing: set<ClaimId>, kept: set<ClaimId>, zones: Zones)
    requires Alike(p, q) && SameOn(p, q, standing) && AllCount(p, standing, zones) && AllCount(q, standing, zones)
    requires kept <= standing && Claims(p, kept) && Claims(q, kept)
    ensures Reported(p, standing, ComparedAmong(p, kept), WinnersAmong(p, kept, zones), zones)
         == Reported(q, standing, ComparedAmong(q, kept), WinnersAmong(q, kept, zones), zones)
  {
    SameTop(p, q, kept);
    SameAmong(p, q, kept, zones);
    SameReport(p, q, standing, ComparedAmong(p, kept), WinnersAmong(p, kept, zones), zones);
  }

  lemma {:induction false} SameStateFrom(p: Question, q: Question, candidates: set<ClaimId>, standing: set<ClaimId>, zones: Zones)
    requires Alike(p, q) && SameOn(p, q, standing) && AllCount(p, standing, zones) && AllCount(q, standing, zones)
    requires KeptAmong(p, standing) == KeptAmong(q, standing)
    ensures StateFrom(p, candidates, standing, zones) == StateFrom(q, candidates, standing, zones)
  {
    if candidates != {} && standing != {} {
      var kept := KeptAmong(p, standing);
      assert kept <= standing && Claims(p, kept) && Claims(q, kept);
      SameReportFrom(p, q, standing, kept, zones);
    }
  }

  lemma {:induction false} SameState(p: Question, q: Question, slot: SlotId, zones: Zones)
    requires Alike(p, q)
    ensures StateOf(p, slot, zones) == StateOf(q, slot, zones)
  {
    SameStanding(p, q, slot, zones);
    SameKept(p, q, slot, zones);
    SameStateFrom(p, q, CandidatesOf(p, slot, zones), StandingOf(p, slot, zones), zones);
  }

  lemma {:induction false} SameViews(p: Question, q: Question, slots: seq<SlotId>, zones: Zones)
    requires Alike(p, q)
    ensures ViewsOf(p, slots, zones) == ViewsOf(q, slots, zones)
    decreases |slots|
  {
    if slots != [] {
      SameState(p, q, slots[0], zones);
      SameViews(p, q, slots[1..], zones);
    }
  }

  lemma {:induction false} SameSlots(p: Question, q: Question)
    requires Alike(p, q)
    ensures SlotsKnown(p) == SlotsKnown(q)
  {
    forall s ensures s in SlotsKnown(p) <==> s in SlotsKnown(q) {
      if c :| c in p.h.claims && Known(p, c) && p.h.claims[c].slot == s {
        assert Known(q, c);
      }
      if c :| c in q.h.claims && Known(q, c) && q.h.claims[c].slot == s {
        assert Known(p, c);
      }
    }
  }

  lemma {:induction false} SameProposals(p: Question, q: Question, zones: Zones)
    requires Alike(p, q)
    ensures ProposalsOf(p, zones) == ProposalsOf(q, zones)
  {
    SameSlots(p, q);
    forall slot ensures ProposalsFor(p, slot, zones) == ProposalsFor(q, slot, zones) {
      SameWinners(p, q, slot, zones);
      forall a: ClaimId, b: ClaimId ensures Disagree(p, slot, a, b, zones) == Disagree(q, slot, a, b, zones) {
      }
    }
  }

  lemma {:induction false} SameIncomparable(p: Question, q: Question, s: set<ClaimId>, zones: Zones)
    requires SameOn(p, q, s) && Claims(p, s) && Claims(q, s) && Incomparable(p, s, zones)
    ensures Incomparable(q, s, zones)
  {
    var a, b :| a in s && b in s && SourceOrder(p.h.claims[a], p.h.claims[b], zones).Err?;
    assert SourceOrder(q.h.claims[a], q.h.claims[b], zones).Err?;
  }

  lemma {:induction false} SameStuck(p: Question, q: Question, slot: SlotId, zones: Zones)
    requires Alike(p, q) && StuckOn(p, slot, zones)
    ensures StuckOn(q, slot, zones)
  {
    SameWinners(p, q, slot, zones);
    SameKept(p, q, slot, zones);
    SameIncomparable(p, q, ComparedAmong(p, KeptOf(p, slot, zones)), zones);
  }

  lemma {:induction false} SameFailures(p: Question, q: Question, zones: Zones)
    requires Alike(p, q) && Unresolvable(p, zones)
    ensures Unresolvable(q, zones)
  {
    if c :| Known(p, c) && Coverage(p.h.claims[c], p.query, zones).Err? {
      assert Known(q, c) && Coverage(q.h.claims[c], q.query, zones).Err?;
    } else {
      var slot: SlotId :| slot in SlotsKnown(p) && StuckOn(p, slot, zones);
      SameSlots(p, q);
      SameStuck(p, q, slot, zones);
    }
  }

  lemma {:induction false} AlikeBack(p: Question, q: Question)
    requires Alike(p, q)
    ensures Alike(q, p)
  {
  }

  /** A view depends on what is known within the bound and on nothing else. */
  lemma {:induction false} ViewDependsOnKnowledge(p: Question, q: Question, zones: Zones)
    requires Alike(p, q)
    ensures ViewOf(p, zones) == ViewOf(q, zones)
    ensures Unresolvable(p, zones) <==> Unresolvable(q, zones)
  {
    SameSlots(p, q);
    SameViews(p, q, Ascending(SlotsKnown(p)), zones);
    SameProposals(p, q, zones);
    AlikeBack(p, q);
    if Unresolvable(p, zones) {
      SameFailures(p, q, zones);
    }
    if Unresolvable(q, zones) {
      SameFailures(q, p, zones);
    }
  }

  /** `later` is `earlier` with claims, relations and retractions appended, all of them
      beyond the bound, by sequence or by recorded time. */
  ghost predicate AppendedBeyond(earlier: History, later: History, k: TxBound) {
    && Extends(later, earlier)
    && (forall c | c in later.claims && c !in earlier.claims :: !WithinTx(later.claims[c].tx, k))
    && (forall i | |earlier.relations| <= i < |later.relations| :: !WithinTx(later.relations[i].tx, k))
    && (forall i | |earlier.retractions| <= i < |later.retractions| :: !WithinTx(later.retractions[i].tx, k))
  }

  /** Asking again about the past gives the same answer, refusals included. */
  lemma {:induction false} AsOfIsStable(q: Question, later: History, zones: Zones)
    requires AppendedBeyond(q.h, later, q.knowledge)
    ensures ViewOf(q.(h := later), zones) == ViewOf(q, zones)
    ensures Unresolvable(q.(h := later), zones) <==> Unresolvable(q, zones)
  {
    forall r: Relation | WithinTx(r.tx, q.knowledge) ensures r in q.h.relations <==> r in later.relations {
      if r in later.relations {
        var i :| 0 <= i < |later.relations| && later.relations[i] == r;
        assert i < |q.h.relations| && q.h.relations[i] == r;
      }
    }
    forall t: Retraction | WithinTx(t.tx, q.knowledge) ensures t in q.h.retractions <==> t in later.retractions {
      if t in later.retractions {
        var i :| 0 <= i < |later.retractions| && later.retractions[i] == t;
        assert i < |q.h.retractions| && q.h.retractions[i] == t;
      }
    }
    ViewDependsOnKnowledge(q, q.(h := later), zones);
  }

  /** The order in which relations and retractions arrived does not matter. */
  lemma {:induction false} ArrivalOrderIsIrrelevant(q: Question, other: History, zones: Zones)
    requires other.claims == q.h.claims
    requires multiset(other.relations) == multiset(q.h.relations) && multiset(other.retractions) == multiset(q.h.retractions)
    ensures ViewOf(q.(h := other), zones) == ViewOf(q, zones)
    ensures Unresolvable(q.(h := other), zones) <==> Unresolvable(q, zones)
  {
    forall r: Relation ensures r in q.h.relations <==> r in other.relations {
      assert r in multiset(q.h.relations) <==> r in multiset(other.relations);
    }
    forall t: Retraction ensures t in q.h.retractions <==> t in other.retractions {
      assert t in multiset(q.h.retractions) <==> t in multiset(other.retractions);
    }
    ViewDependsOnKnowledge(q, q.(h := other), zones);
  }

  // ------------------------------------------------------- the shape of a view

  lemma {:induction false} ViewsAre(q: Question, slots: seq<SlotId>, zones: Zones)
    ensures |ViewsOf(q, slots, zones)| == |slots|
    ensures forall i | 0 <= i < |slots| :: ViewsOf(q, slots, zones)[i] == SlotView(slots[i], StateOf(q, slots[i], zones))
    decreases |slots|
  {
    if slots != [] {
      ViewsAre(q, slots[1..], zones);
    }
  }

  /** One entry for each slot with a known claim, in strictly increasing slot order. */
  lemma {:induction false} SlotsInOrder(q: Question, zones: Zones)
    ensures var views := ViewOf(q, zones).slots;
            && (forall i, j | 0 <= i < j < |views| :: views[i].slot < views[j].slot)
            && (forall s :: (exists i :: 0 <= i < |views| && views[i].slot == s) <==> s in SlotsKnown(q))
            && (forall i | 0 <= i < |views| :: views[i].state == StateOf(q, views[i].slot, zones))
  {
    var slots := Ascending(SlotsKnown(q));
    AscendingLists(SlotsKnown(q));
    ViewsAre(q, slots, zones);
    var views := ViewOf(q, zones).slots;
    forall s ensures (exists i :: 0 <= i < |views| && views[i].slot == s) <==> s in SlotsKnown(q) {
      assert s in SlotsKnown(q) <==> s in Elements(slots);
      if s in slots {
        var i :| 0 <= i < |slots| && slots[i] == s;
        assert views[i].slot == s;
      }
    }
  }

  lemma {:induction false} CandidatesAre(q: Question, standing: set<ClaimId>, compared: set<ClaimId>, ids: seq<ClaimId>, zones: Zones)
    requires Claims(q, compared) && Counted(q, ids, zones)
    ensures var list := CandidateList(q, standing, compared, ids, zones);
            |list| == |ids| && forall i | 0 <= i < |ids| :: list[i].id == ids[i] && list[i].value == q.h.claims[ids[i]].value
    decreases |ids|
  {
    if ids != [] {
      CandidatesAre(q, standing, compared, ids[1..], zones);
    }
  }

  function ListOf(state: SlotState): seq<Candidate> {
    match state
    case Value(list) => list
    case Conflicted(list) => list
    case _ => []
  }

  /** A list that shows exactly `winners`, each once, in claim order, with its value. */
  ghost predicate Shows(q: Question, list: seq<Candidate>, winners: set<ClaimId>) {
    && |list| == |winners| && (forall i, j | 0 <= i < j < |list| :: list[i].id < list[j].id)
    && (forall c | c in winners :: exists i :: 0 <= i < |list| && list[i].id == c)
    && (forall i | 0 <= i < |list| :: list[i].id in winners && list[i].id in q.h.claims && list[i].value == q.h.claims[list[i].id].value)
  }

  lemma {:induction false} ListShows(q: Question, standing: set<ClaimId>, compared: set<ClaimId>, winners: set<ClaimId>, zones: Zones)
    requires Claims(q, compared) && Counted(q, Ascending(winners), zones)
    ensures Shows(q, CandidateList(q, standing, compared, Ascending(winners), zones), winners)
  {
    var ids := Ascending(winners);
    AscendingLists(winners);
    FirstByIdPicks(winners, |winners|);
    CandidatesAre(q, standing, compared, ids, zones);
    var list := CandidateList(q, standing, compared, ids, zones);
    forall c | c in winners ensures exists i :: 0 <= i < |list| && list[i].id == c {
      assert c in Elements(ids);
      var i :| 0 <= i < |ids| && ids[i] == c;
      assert list[i].id == c;
    }
    forall i | 0 <= i < |list| ensures list[i].id in winners {
      assert ids[i] in Elements(ids);
    }
  }

  /** The candidates of a slot are its winners, each once, in claim order. */
  lemma {:induction false} CandidatesAreWinners(q: Question, slot: SlotId, zones: Zones)
    requires StandingOf(q, slot, zones) != {}
    ensures var state := StateOf(q, slot, zones);
            (state.Value? || state.Conflicted?) && Shows(q, ListOf(state), WinnersOf(q, slot, zones))
            && (state.Value? <==> Agree(q, WinnersOf(q, slot, zones)))
  {
    var standing := StandingOf(q, slot, zones);
    var kept := KeptAmong(q, standing);
    SubsetCounts(q, standing, WinnersAmong(q, kept, zones), zones);
    ListShows(q, standing, ComparedAmong(q, kept), WinnersAmong(q, kept, zones), zones);
    assert CandidatesOf(q, slot, zones) != {};
  }

  ghost predicate OneValue(list: seq<Candidate>) {
    forall i, j | 0 <= i < |list| && 0 <= j < |list| :: list[i].value == list[j].value
  }

  lemma {:induction false} OneValueIsAgreement(q: Question, list: seq<Candidate>, winners: set<ClaimId>)
    requires Shows(q, list, winners) && Claims(q, winners)
    ensures OneValue(list) <==> Agree(q, winners)
  {
    if OneValue(list) {
      forall c, d | c in winners && d in winners ensures q.h.claims[c].value == q.h.claims[d].value {
        var i :| 0 <= i < |list| && list[i].id == c;
        var j :| 0 <= j < |list| && list[j].id == d;
        assert list[i].value == list[j].value;
      }
    }
  }

  /** A slot is reported as a value exactly when its candidates agree. */
  lemma {:induction false} ValueMeansAgreement(q: Question, slot: SlotId, zones: Zones)
    requires StandingOf(q, slot, zones) != {}
    ensures StateOf(q, slot, zones).Value? <==> OneValue(ListOf(StateOf(q, slot, zones)))
  {
    CandidatesAreWinners(q, slot, zones);
    OneValueIsAgreement(q, ListOf(StateOf(q, slot, zones)), WinnersOf(q, slot, zones));
  }

  /** A proposal is exactly an ordered pair of candidates of one slot that disagree. */
  lemma {:induction false} ProposalsAreDisagreements(q: Question, zones: Zones, a: ClaimId, b: ClaimId)
    ensures Proposal(a, b) in ViewOf(q, zones).proposals
       <==> a < b && exists slot :: slot in SlotsKnown(q) && BothWinAndDiffer(q, slot, a, b, zones)
  {
    if Proposal(a, b) in ProposalsOf(q, zones) {
      var slot, p :| slot in SlotsKnown(q) && p in ProposalsFor(q, slot, zones) && p == Proposal(a, b);
      assert BothWinAndDiffer(q, slot, a, b, zones);
    }
    if slot :| slot in SlotsKnown(q) && BothWinAndDiffer(q, slot, a, b, zones) && a < b {
      assert Disagree(q, slot, a, b, zones);
      assert Proposal(a, b) in ProposalsFor(q, slot, zones);
    }
  }

  ghost predicate BothWinAndDiffer(q: Question, slot: SlotId, a: ClaimId, b: ClaimId, zones: Zones) {
    a in WinnersOf(q, slot, zones) && b in WinnersOf(q, slot, zones) && q.h.claims[a].value != q.h.claims[b].value
  }

  lemma {:induction false} DisagreementIsProposed(q: Question, slot: SlotId, winners: set<ClaimId>, zones: Zones)
    requires winners == WinnersOf(q, slot, zones)
    ensures Agree(q, winners) <==> ProposalsFor(q, slot, zones) == {}
  {
    if !Agree(q, winners) {
      var c, d :| c in winners && d in winners && q.h.claims[c].value != q.h.claims[d].value;
      var a, b := if c < d then c else d, if c < d then d else c;
      assert Disagree(q, slot, a, b, zones);
      assert Proposal(a, b) in ProposalsFor(q, slot, zones);
    }
    if ProposalsFor(q, slot, zones) != {} {
      var p :| p in ProposalsFor(q, slot, zones);
      assert q.h.claims[p.left].value != q.h.claims[p.right].value;
    }
  }

  /** Proposals come from conflicted slots only, and every conflicted slot makes one. */
  lemma {:induction false} ConflictsAreProposed(q: Question, slot: SlotId, zones: Zones)
    requires slot in SlotsKnown(q) && StandingOf(q, slot, zones) != {}
    ensures StateOf(q, slot, zones).Conflicted? <==> ProposalsFor(q, slot, zones) != {}
  {
    DisagreementIsProposed(q, slot, WinnersOf(q, slot, zones), zones);
  }

  // ------------------------------------------------------------ who survives

  /** A user and a supplier who disagree are both shown, whatever their authority or order. */
  lemma {:induction false} UserAndSupplierBothKept(q: Question, slot: SlotId, zones: Zones, c: ClaimId, d: ClaimId)
    requires c in KeptOf(q, slot, zones) && d in KeptOf(q, slot, zones)
    requires q.h.claims[c].sourcing == User && q.h.claims[d].sourcing == Supplier
    requires q.h.claims[c].value != q.h.claims[d].value
    ensures StateOf(q, slot, zones).Conflicted?
    ensures c in WinnersOf(q, slot, zones) && d in WinnersOf(q, slot, zones)
  {
    assert Contested(q, KeptOf(q, slot, zones));
    assert WinnersOf(q, slot, zones) == KeptOf(q, slot, zones);
    assert c in StandingOf(q, slot, zones) && c in CandidatesOf(q, slot, zones);
  }

  /** Relations that take effect point from later claims to earlier ones. */
  ghost predicate RelationsPointBack(q: Question, standing: set<ClaimId>) {
    forall r | r in q.h.relations && Removes(q, standing, r) ::
      r.from in q.h.claims && q.h.claims[r.target.value].tx.seq_ < q.h.claims[r.from].tx.seq_
  }

  /** Either every claim carries a source revision, or none does. */
  ghost predicate Uniform(q: Question, s: set<ClaimId>)
    requires Claims(q, s)
  {
    (forall c | c in s :: q.h.claims[c].sourceSeq.Some?) || (forall c | c in s :: q.h.claims[c].sourceSeq.None?)
  }

  lemma {:induction false} HasMost(s: set<ClaimId>, f: ClaimId -> int) returns (top: ClaimId)
    requires s != {}
    ensures top in s && forall c | c in s :: f(c) <= f(top)
    decreases |s|
  {
    top :| top in s;
    if s != {top} {
      var rest := HasMost(s - {top}, f);
      if f(top) < f(rest) {
        top := rest;
      }
      forall c | c in s ensures f(c) <= f(top) {
      }
    }
  }

  lemma {:induction false} LatestIsKept(q: Question, slot: SlotId, zones: Zones)
    requires StandingOf(q, slot, zones) != {} && RelationsPointBack(q, StandingOf(q, slot, zones))
    ensures KeptOf(q, slot, zones) != {}
  {
    var standing := StandingOf(q, slot, zones);
    var top := HasMost(standing, (c: ClaimId) => if c in q.h.claims then q.h.claims[c].tx.seq_ else 0);
    assert top !in RemovedFrom(q, standing);
    assert top in KeptOf(q, slot, zones);
  }

  lemma {:induction false} TopIsThere(q: Question, s: set<ClaimId>)
    requires Claims(q, s) && s != {}
    ensures TopOf(q, s) != {}
  {
    var top := HasMost(s, (c: ClaimId) => if c in q.h.claims then q.h.claims[c].authority else 0);
    assert top in TopOf(q, s);
  }

  /** Where the time of a claim begins, and for equal beginnings where it ends. */
  function Early(q: Question, zones: Zones, c: ClaimId): int {
    if c in q.h.claims && q.h.claims[c].sourceTime.Some? && zones(q.h.claims[c].sourceTime.value).Ok?
    then zones(q.h.claims[c].sourceTime.value).value.possible.0 else 0
  }

  function Late(q: Question, zones: Zones, c: ClaimId): int {
    if c in q.h.claims && q.h.claims[c].sourceTime.Some? && zones(q.h.claims[c].sourceTime.value).Ok?
    then zones(q.h.claims[c].sourceTime.value).value.possible.1 else 0
  }

  function Revision(q: Question, c: ClaimId): int {
    if c in q.h.claims && q.h.claims[c].sourceSeq.Some? then q.h.claims[c].sourceSeq.value else 0
  }

  /** With revisions everywhere or nowhere, something is dominated by nothing. */
  lemma {:induction false} SomethingUndominated(q: Question, s: set<ClaimId>, zones: Zones)
    requires Claims(q, s) && s != {} && Uniform(q, s)
    ensures UndominatedOf(q, s, zones) != {}
  {
    var newest := HasMost(s, (c: ClaimId) => Revision(q, c));
    var latest := set c | c in s && Revision(q, c) == Revision(q, newest);
    var timed := set c | c in latest && q.h.claims[c].sourceTime.Some? && zones(q.h.claims[c].sourceTime.value).Ok?;
    var top := newest;
    assert newest in latest;
    if timed != {} {
      var early := HasMost(timed, (c: ClaimId) => Early(q, zones, c));
      var earliest := set c | c in timed && Early(q, zones, c) == Early(q, zones, early);
      assert early in earliest;
      top := HasMost(earliest, (c: ClaimId) => Late(q, zones, c));
      assert top in timed && top in latest;
      forall d | d in s ensures !Dominates(q.h.claims[d], q.h.claims[top], zones) {
        assert Revision(q, d) <= Revision(q, newest);
        assert d in timed ==> Early(q, zones, d) <= Early(q, zones, early);
        assert d in earliest ==> Late(q, zones, d) <= Late(q, zones, top);
        TimedTopStands(q, s, zones, top, d);
      }
    }
    if timed == {} {
      assert newest !in timed;
      forall d | d in s ensures !Dominates(q.h.claims[d], q.h.claims[newest], zones) {
        assert Revision(q, d) <= Revision(q, newest);
      }
    }
    assert top in UndominatedOf(q, s, zones);
  }

  lemma {:induction false} TimedTopStands(q: Question, s: set<ClaimId>, zones: Zones, top: ClaimId, d: ClaimId)
    requires Claims(q, s) && Uniform(q, s) && top in s && d in s && Revision(q, d) <= Revision(q, top)
    requires q.h.claims[top].sourceTime.Some? && zones(q.h.claims[top].sourceTime.value).Ok?
    requires Revision(q, d) == Revision(q, top) && q.h.claims[d].sourceTime.Some? && zones(q.h.claims[d].sourceTime.value).Ok?
      ==> Early(q, zones, d) <= Early(q, zones, top) && (Early(q, zones, d) == Early(q, zones, top) ==> Late(q, zones, d) <= Late(q, zones, top))
    ensures !Dominates(q.h.claims[d], q.h.claims[top], zones)
  {
  }

  /** A slot that still has a claim nobody retracted has a winner, if relations point back
      in time and, among the claims whose source order is compared, source revisions are
      given uniformly. */
  lemma {:induction false} SlotHasWinner(q: Question, slot: SlotId, zones: Zones)
    requires StandingOf(q, slot, zones) != {} && RelationsPointBack(q, StandingOf(q, slot, zones))
    requires Uniform(q, ComparedAmong(q, KeptOf(q, slot, zones)))
    ensures WinnersOf(q, slot, zones) != {} && |ListOf(StateOf(q, slot, zones))| > 0
  {
    LatestIsKept(q, slot, zones);
    var kept := KeptOf(q, slot, zones);
    TopIsThere(q, kept);
    if !Contested(q, kept) && OrdersBySource(q, TopOf(q, kept)) {
      SomethingUndominated(q, TopOf(q, kept), zones);
    }
    CandidatesAreWinners(q, slot, zones);
    var c :| c in WinnersOf(q, slot, zones);
    ShownIsThere(q, ListOf(StateOf(q, slot, zones)), WinnersOf(q, slot, zones), c);
  }

  lemma {:induction false} ShownIsThere(q: Question, list: seq<Candidate>, winners: set<ClaimId>, c: ClaimId)
    requires Shows(q, list, winners) && c in winners
    ensures |list| > 0
  {
  }

  /** The claims that carry a source revision, or those that carry none. */
  function Numbered(q: Question, s: set<ClaimId>, with_: bool): (part: set<ClaimId>)
    requires Claims(q, s)
    ensures Claims(q, part) && part <= s
  {
    set c | c in s && q.h.claims[c].sourceSeq.Some? == with_
  }

  /** The foremost claims of one part all come before some claim of the other part, which
      between such claims only times can decide. */
  predicate OvertakenBy(q: Question, s: set<ClaimId>, with_: bool, zones: Zones)
    requires Claims(q, s)
  {
    forall c <- UndominatedOf(q, Numbered(q, s, with_), zones) :: DominatedIn(q, Numbered(q, s, !with_), c, zones)
  }

  /** Source order leaves nothing standing if and only if some claims carry a revision and
      some do not, and each side's foremost are overtaken by the other's. */
  lemma {:induction false} AllDominatedIff(q: Question, s: set<ClaimId>, zones: Zones)
    requires Claims(q, s) && s != {}
    ensures UndominatedOf(q, s, zones) == {}
       <==> (Numbered(q, s, true) != {} && Numbered(q, s, false) != {}
             && OvertakenBy(q, s, true, zones) && OvertakenBy(q, s, false, zones))
  {
    if UndominatedOf(q, s, zones) == {} {
      MixedIfNone(q, s, zones);
      SideOvertaken(q, s, true, zones);
      SideOvertaken(q, s, false, zones);
    }
    if OvertakenBy(q, s, true, zones) && OvertakenBy(q, s, false, zones) {
      forall c | c in s ensures DominatedIn(q, s, c, zones) {
        OvertakenMember(q, s, c, zones);
      }
    }
  }

  lemma {:induction false} MixedIfNone(q: Question, s: set<ClaimId>, zones: Zones)
    requires Claims(q, s) && s != {} && UndominatedOf(q, s, zones) == {}
    ensures Numbered(q, s, true) != {} && Numbered(q, s, false) != {}
  {
    if Uniform(q, s) {
      SomethingUndominated(q, s, zones);
    } else {
      var c :| c in s && q.h.claims[c].sourceSeq.None?;
      var d :| d in s && q.h.claims[d].sourceSeq.Some?;
      assert c in Numbered(q, s, false) && d in Numbered(q, s, true);
    }
  }

  lemma {:induction false} SideOvertaken(q: Question, s: set<ClaimId>, with_: bool, zones: Zones)
    requires Claims(q, s) && UndominatedOf(q, s, zones) == {}
    ensures OvertakenBy(q, s, with_, zones)
  {
    forall c | c in UndominatedOf(q, Numbered(q, s, with_), zones)
      ensures DominatedIn(q, Numbered(q, s, !with_), c, zones)
    {
      OvertakenFrom(q, s, with_, c, zones);
    }
  }

  lemma {:induction false} OvertakenMember(q: Question, s: set<ClaimId>, c: ClaimId, zones: Zones)
    requires Claims(q, s) && c in s && OvertakenBy(q, s, q.h.claims[c].sourceSeq.Some?, zones)
    ensures DominatedIn(q, s, c, zones)
  {
    var with_ := q.h.claims[c].sourceSeq.Some?;
    assert c in Numbered(q, s, with_);
    assert c !in UndominatedOf(q, Numbered(q, s, with_), zones) ==> DominatedIn(q, Numbered(q, s, with_), c, zones);
  }

  lemma {:induction false} OvertakenFrom(q: Question, s: set<ClaimId>, with_: bool, c: ClaimId, zones: Zones)
    requires Claims(q, s) && c in UndominatedOf(q, Numbered(q, s, with_), zones) && c !in UndominatedOf(q, s, zones)
    ensures DominatedIn(q, Numbered(q, s, !with_), c, zones)
  {
    var d :| d in s && Dominates(q.h.claims[d], q.h.claims[c], zones);
    assert d !in Numbered(q, s, with_);
    assert d in Numbered(q, s, !with_);
  }

  /** Every standing claim is superseded by a standing one, with authority enough. */
  predicate AllSuperseded(q: Question, standing: set<ClaimId>) {
    forall c <- standing :: exists r <- q.h.relations :: Removes(q, standing, r) && r.target == Some(c)
  }

  /** A slot with a claim nobody retracted has no winner if and only if the claims supersede
      each other without exception, or their source order, when it is compared, overtakes
      both ways between those with a revision and those without. */
  lemma {:induction false} SlotLosesAllIff(q: Question, slot: SlotId, zones: Zones)
    requires StandingOf(q, slot, zones) != {}
    ensures var compared := ComparedAmong(q, KeptOf(q, slot, zones));
            WinnersOf(q, slot, zones) == {}
            <==> (AllSuperseded(q, StandingOf(q, slot, zones))
                  || (Numbered(q, compared, true) != {} && Numbered(q, compared, false) != {}
                      && OvertakenBy(q, compared, true, zones) && OvertakenBy(q, compared, false, zones)))
  {
    var standing, kept := StandingOf(q, slot, zones), KeptOf(q, slot, zones);
    KeptNoneIff(q, standing);
    if kept != {} {
      TopIsThere(q, kept);
      if !Contested(q, kept) && OrdersBySource(q, TopOf(q, kept)) {
        AllDominatedIff(q, TopOf(q, kept), zones);
      }
    }
  }

  lemma {:induction false} KeptNoneIff(q: Question, standing: set<ClaimId>)
    ensures KeptAmong(q, standing) == {} <==> AllSuperseded(q, standing)
  {
    forall c | c in standing
      ensures c in RemovedFrom(q, standing) <==> exists r <- q.h.relations :: Removes(q, standing, r) && r.target == Some(c)
    {
      if c in RemovedFrom(q, standing) {
        var r :| r in q.h.relations && Removes(q, standing, r) && r.target.value == c;
        assert r.target == Some(c);
      }
    }
    if AllSuperseded(q, standing) {
      assert forall c | c in standing :: c in RemovedFrom(q, standing);
    } else {
      var c :| c in standing && !exists r <- q.h.relations :: Removes(q, standing, r) && r.target == Some(c);
      assert c in KeptAmong(q, standing);
    }
  }

  // ---------------------------------------------- why the hypotheses are there

  function Instantly(p: TimePoint): Result<Window, ProjectionError> {
    Ok(Window(Some((p, p + 1)), (p, p + 1)))
  }

  function Plain(value: string, number: nat, revision: Option<nat>, time: TimePoint): ClaimRecord {
    ClaimRecord(0, 0, value, Timeless, Some(time), revision, TxStamp(number, number), 1, Supplier, BySourceOrder)
  }

  function Asked(h: History): Question {
    Question(h, Sequence(9), Window(Some((0, 1)), (0, 1)), Policy(true, true))
  }

  lemma {:induction false} NothingWins(q: Question, zones: Zones)
    requires CandidatesOf(q, 0, zones) != {} && StandingOf(q, 0, zones) != {} && WinnersOf(q, 0, zones) == {}
    ensures StateOf(q, 0, zones) == Value([])
  {
    CandidatesAreWinners(q, 0, zones);
  }

  function Mixed(): History {
    History(map[1 := Plain("a", 1, Some(1), 10), 2 := Plain("b", 2, Some(2), 1), 3 := Plain("c", 3, None, 5)], [], [], map[])
  }

  /** Revision 1 at time 10, revision 2 at time 1, and no revision at time 5: each comes
      before another, so all three lose and the slot is an empty value. */
  lemma {:induction false} MixedRevisionsLoseAll()
    ensures StandingOf(Asked(Mixed()), 0, Instantly) == {1, 2, 3} && StateOf(Asked(Mixed()), 0, Instantly) == Value([])
  {
    var q := Asked(Mixed());
    MixedStanding();
    MixedDominated();
    NothingWins(q, Instantly);
  }

  lemma {:induction false} MixedStanding()
    ensures CandidatesOf(Asked(Mixed()), 0, Instantly) == {1, 2, 3} && StandingOf(Asked(Mixed()), 0, Instantly) == {1, 2, 3}
    ensures KeptAmong(Asked(Mixed()), {1, 2, 3}) == {1, 2, 3}
  {
    var q := Asked(Mixed());
    assert CandidatesOf(q, 0, Instantly) == {1, 2, 3};
    assert RetractedIds(q) == {} && RemovedFrom(q, {1, 2, 3}) == {};
  }

  lemma {:induction false} MixedCycle()
    ensures var a, b, c := Mixed().claims[1], Mixed().claims[2], Mixed().claims[3];
            Dominates(b, a, Instantly) && Dominates(c, b, Instantly) && Dominates(a, c, Instantly)
  {
  }

  lemma {:induction false} AllDominated(q: Question, s: set<ClaimId>, zones: Zones)
    requires Claims(q, s) && (forall c | c in s :: q.h.claims[c].sourcing == Supplier && q.h.claims[c].authority == 1)
    requires forall c | c in s :: DominatedIn(q, s, c, zones)
    requires OrdersBySource(q, s)
    ensures WinnersAmong(q, s, zones) == {}
  {
    assert TopOf(q, s) == s;
  }

  lemma {:induction false} MixedDominated()
    ensures Claims(Asked(Mixed()), {1, 2, 3}) && WinnersAmong(Asked(Mixed()), {1, 2, 3}, Instantly) == {}
  {
    var q := Asked(Mixed());
    var s: set<ClaimId> := {1, 2, 3};
    MixedCycle();
    assert 1 in s && 2 in s && 3 in s;
    assert Lowest(s) in s;
    AllDominated(q, s, Instantly);
  }

  function Mutual(): History {
    History(map[1 := Plain("a", 1, None, 1), 2 := Plain("b", 2, None, 1)],
            [Relation(2, Some(1), Supersedes, 1, TxStamp(3, 3)), Relation(1, Some(2), Supersedes, 1, TxStamp(4, 4))], [], map[])
  }

  /** Two claims that supersede each other leave the slot an empty value too. */
  lemma {:induction false} MutualSupersessionLosesAll()
    ensures StandingOf(Asked(Mutual()), 0, Instantly) == {1, 2} && StateOf(Asked(Mutual()), 0, Instantly) == Value([])
  {
    var q := Asked(Mutual());
    assert CandidatesOf(q, 0, Instantly) == {1, 2};
    assert RetractedIds(q) == {};
    assert StandingOf(q, 0, Instantly) == {1, 2};
    MutualKeepsNone();
    NothingWins(q, Instantly);
  }

  lemma {:induction false} MutualKeepsNone()
    ensures KeptAmong(Asked(Mutual()), {1, 2}) == {}
  {
    var q := Asked(Mutual());
    var s: set<ClaimId> := {1, 2};
    var a, b := Mutual().relations[0], Mutual().relations[1];
    assert a in q.h.relations && b in q.h.relations;
    assert Removes(q, s, a) && Removes(q, s, b);
    assert 1 in RemovedFrom(q, s) && 2 in RemovedFrom(q, s);
  }
}
