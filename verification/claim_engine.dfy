/** The projection as it runs: grouping, retaining and comparing, loop by loop. */
module ProjectionEngine {

  import opened Wrappers
  import opened Ordered
  import opened ClaimHistories
  import opened ClaimProjection

  /** Keep what is not in `gone`, in order. */
  method Retain(ids: seq<ClaimId>, gone: set<ClaimId>) returns (left: seq<ClaimId>)
    requires Increasing(ids)
    ensures Increasing(left) && Elements(left) == Elements(ids) - gone
  {
    left := [];
    for i := 0 to |ids|
      invariant Increasing(left) && (i < |ids| ==> forall k | 0 <= k < |left| :: left[k] < ids[i])
      invariant forall c | c in left :: exists j :: 0 <= j < i && ids[j] == c && c !in gone
      invariant forall j | 0 <= j < i && ids[j] !in gone :: ids[j] in left
    {
      if ids[i] !in gone {
        left := left + [ids[i]];
      }
    }
    forall c ensures c in Elements(left) <==> c in Elements(ids) - gone {
    }
  }

  // ----------------------------------------------------------- what supersedes

  function Entry(superseded: map<ClaimId, set<ClaimId>>, c: ClaimId): set<ClaimId> {
    if c in superseded then superseded[c] else {}
  }

  function RelationTargets(q: Question, relations: seq<Relation>, standing: set<ClaimId>, c: ClaimId): set<ClaimId> {
    set r | r in relations && Removes(q, standing, r) && r.from == c :: r.target.value
  }

  /** Relations between active claims, in the order they were appended. */
  method ApplyRelations(q: Question, active: seq<ClaimId>) returns (removed: set<ClaimId>, superseded: map<ClaimId, set<ClaimId>>)
    ensures removed == RemovedFrom(q, Elements(active))
    ensures forall c: ClaimId :: Entry(superseded, c) == RelationTargets(q, q.h.relations, Elements(active), c)
  {
    removed, superseded := {}, map[];
    var standing := Elements(active);
    for i := 0 to |q.h.relations|
      invariant removed == set r | r in q.h.relations[..i] && Removes(q, standing, r) :: r.target.value
      invariant forall c: ClaimId :: Entry(superseded, c) == RelationTargets(q, q.h.relations[..i], standing, c)
    {
      var r := q.h.relations[i];
      assert q.h.relations[..i + 1] == q.h.relations[..i] + [r];
      ghost var before := superseded;
      if Removes(q, standing, r) {
        removed := removed + {r.target.value};
        superseded := superseded[r.from := Entry(superseded, r.from) + {r.target.value}];
      }
      TargetsGrow(q, q.h.relations[..i], r, standing, before, superseded);
    }
    assert q.h.relations[..|q.h.relations|] == q.h.relations;
  }

  lemma {:induction false} TargetsGrow(q: Question, some: seq<Relation>, r: Relation, standing: set<ClaimId>,
                                       before: map<ClaimId, set<ClaimId>>, after: map<ClaimId, set<ClaimId>>)
    requires forall c: ClaimId :: Entry(before, c) == RelationTargets(q, some, standing, c)
    requires after == if Removes(q, standing, r) then before[r.from := Entry(before, r.from) + {r.target.value}] else before
    ensures forall c: ClaimId :: Entry(after, c) == RelationTargets(q, some + [r], standing, c)
    ensures (set x | x in some + [r] && Removes(q, standing, x) :: x.target.value)
         == (set x | x in some && Removes(q, standing, x) :: x.target.value) + if Removes(q, standing, r) then {r.target.value} else {}
  {
    forall c: ClaimId ensures Entry(after, c) == RelationTargets(q, some + [r], standing, c) {
      var more := RelationTargets(q, some + [r], standing, c);
      assert r in some + [r];
      assert forall x :: x in some + [r] <==> x in some || x == r;
      if Removes(q, standing, r) && r.from == c {
        assert more == RelationTargets(q, some, standing, c) + {r.target.value};
      } else {
        assert more == RelationTargets(q, some, standing, c);
      }
    }
  }

  method MaxAuthority(q: Question, active: seq<ClaimId>) returns (most: nat)
    requires forall c | c in active :: c in q.h.claims
    ensures forall c | c in active :: q.h.claims[c].authority <= most
    ensures active != [] ==> exists c :: c in active && q.h.claims[c].authority == most
  {
    most := 0;
    for i := 0 to |active|
      invariant forall j | 0 <= j < i :: q.h.claims[active[j]].authority <= most
      invariant i > 0 ==> exists j :: 0 <= j < i && q.h.claims[active[j]].authority == most
      invariant i == 0 ==> most == 0
    {
      if q.h.claims[active[i]].authority > most || i == 0 {
        most := q.h.claims[active[i]].authority;
      }
    }
  }

  function DominatedBy(q: Question, top: set<ClaimId>, c: ClaimId, zones: Zones): set<ClaimId>
    requires Claims(q, top) && c in q.h.claims
  {
    set d | d in top && Dominates(q.h.claims[c], q.h.claims[d], zones)
  }

  predicate Beats(q: Question, a: ClaimId, b: ClaimId, zones: Zones)
    requires a in q.h.claims && b in q.h.claims
  {
    Dominates(q.h.claims[a], q.h.claims[b], zones)
  }

  /** Source order can place every claim against `left`. */
  ghost predicate Answers(q: Question, active: seq<ClaimId>, left: ClaimId, zones: Zones)
    requires Claims(q, Elements(active)) && left in q.h.claims
  {
    forall y | y in active && y in q.h.claims :: SourceOrder(q.h.claims[y], q.h.claims[left], zones).Ok?
  }

  ghost predicate NotedOne(q: Question, active: seq<ClaimId>, left: ClaimId, before: map<ClaimId, set<ClaimId>>,
                           after: map<ClaimId, set<ClaimId>>, zones: Zones)
    requires left in q.h.claims
  {
    forall c | c in active && c in q.h.claims ::
      Entry(after, c) == Entry(before, c) + BeatenAmong(q, [left], c, zones)
  }

  ghost predicate Noted(q: Question, active: seq<ClaimId>, some: seq<ClaimId>, start: map<ClaimId, set<ClaimId>>,
                        superseded: map<ClaimId, set<ClaimId>>, zones: Zones)
  {
    forall c | c in active && c in q.h.claims :: Entry(superseded, c) == Entry(start, c) + BeatenAmong(q, some, c, zones)
  }

  lemma {:induction false} NotedStep(q: Question, active: seq<ClaimId>, some: seq<ClaimId>, left: ClaimId, start: map<ClaimId, set<ClaimId>>,
                                     before: map<ClaimId, set<ClaimId>>, after: map<ClaimId, set<ClaimId>>, zones: Zones)
    requires left in q.h.claims && Noted(q, active, some, start, before, zones) && NotedOne(q, active, left, before, after, zones)
    ensures Noted(q, active, some + [left], start, after, zones)
  {
    forall c | c in active && c in q.h.claims ensures Entry(after, c) == Entry(start, c) + BeatenAmong(q, some + [left], c, zones) {
      BeatenSnoc(q, some, left, c, zones);
      assert BeatenAmong(q, [left], c, zones) == if Beats(q, c, left, zones) then {left} else {};
    }
  }

  function BeatenAmong(q: Question, some: seq<ClaimId>, c: ClaimId, zones: Zones): set<ClaimId>
    requires c in q.h.claims
  {
    set x | x in some && x in q.h.claims && Beats(q, c, x, zones)
  }

  /** Some claim of `some` beats `left`. */
  ghost predicate BeatenBy(q: Question, some: seq<ClaimId>, left: ClaimId, zones: Zones)
    requires left in q.h.claims
  {
    exists y :: y in some && y in q.h.claims && Beats(q, y, left, zones)
  }

  /** `left` is noted against those of `some` that beat it. */
  ghost predicate Asked(q: Question, active: seq<ClaimId>, some: seq<ClaimId>, left: ClaimId,
                        start: map<ClaimId, set<ClaimId>>, now: map<ClaimId, set<ClaimId>>, zones: Zones)
    requires left in q.h.claims
  {
    forall c: ClaimId | c in active && c in q.h.claims ::
      (Entry(now, c) == Entry(start, c) + if c in some && Beats(q, c, left, zones) then {left} else {})
  }

  lemma {:induction false} AskedStep(q: Question, active: seq<ClaimId>, some: seq<ClaimId>, left: ClaimId, right: ClaimId,
                                     start: map<ClaimId, set<ClaimId>>, now: map<ClaimId, set<ClaimId>>, next: map<ClaimId, set<ClaimId>>, zones: Zones)
    requires left in q.h.claims && right in q.h.claims && Asked(q, active, some, left, start, now, zones)
    requires next == if Beats(q, right, left, zones) then now[right := Entry(now, right) + {left}] else now
    ensures Asked(q, active, some + [right], left, start, next, zones)
    ensures BeatenBy(q, some + [right], left, zones) <==> BeatenBy(q, some, left, zones) || Beats(q, right, left, zones)
  {
    assert forall c :: c in some + [right] <==> c in some || c == right;
  }

  lemma {:induction false} AskedAll(q: Question, active: seq<ClaimId>, left: ClaimId,
                                    start: map<ClaimId, set<ClaimId>>, now: map<ClaimId, set<ClaimId>>, zones: Zones)
    requires Claims(q, Elements(active)) && left in q.h.claims && Asked(q, active, active, left, start, now, zones)
    ensures NotedOne(q, active, left, start, now, zones)
    ensures BeatenBy(q, active, left, zones) <==> DominatedIn(q, Elements(active), left, zones)
  {
    forall c | c in active && c in q.h.claims ensures Entry(now, c) == Entry(start, c) + BeatenAmong(q, [left], c, zones) {
      assert BeatenAmong(q, [left], c, zones) == if Beats(q, c, left, zones) then {left} else {};
    }
    assert forall c :: c in Elements(active) <==> c in active;
  }

  ghost predicate AnswersSome(q: Question, some: seq<ClaimId>, left: ClaimId, zones: Zones)
    requires left in q.h.claims
  {
    forall y | y in some && y in q.h.claims :: SourceOrder(q.h.claims[y], q.h.claims[left], zones).Ok?
  }

  /** One claim against all, itself included. */
  method CompareOne(q: Question, active: seq<ClaimId>, left: ClaimId, zones: Zones, start: map<ClaimId, set<ClaimId>>)
    returns (r: Result<bool, ProjectionError>, superseded: map<ClaimId, set<ClaimId>>)
    requires Claims(q, Elements(active)) && left in active
    ensures r.Ok? <==> Answers(q, active, left, zones)
    ensures r.Ok? ==> r.value == DominatedIn(q, Elements(active), left, zones)
    ensures r.Ok? ==> NotedOne(q, active, left, start, superseded, zones)
  {
    var dominated := false;
    superseded := start;
    assert left in Elements(active) && forall y | 0 <= y < |active| :: active[y] in Elements(active);
    for j := 0 to |active|
      invariant AnswersSome(q, active[..j], left, zones)
      invariant dominated <==> BeatenBy(q, active[..j], left, zones)
      invariant Asked(q, active, active[..j], left, start, superseded, zones)
    {
      var right := active[j];
      assert active[..j + 1] == active[..j] + [right];
      ghost var before := superseded;
      match SourceOrder(q.h.claims[right], q.h.claims[left], zones) {
        case Err(e) =>
          assert right in active;
          return Err(e), superseded;
        case Ok(order) =>
          if order == Greater {
            dominated := true;
            superseded := superseded[right := Entry(superseded, right) + {left}];
          }
      }
      AskedStep(q, active, active[..j], left, right, start, before, superseded, zones);
    }
    assert active[..|active|] == active;
    AskedAll(q, active, left, start, superseded, zones);
    r := Ok(dominated);
  }

  function Lost(q: Question, top: set<ClaimId>, some: seq<ClaimId>, zones: Zones): set<ClaimId>
    requires Claims(q, top)
  {
    set c | c in some && c in q.h.claims && DominatedIn(q, top, c, zones)
  }

  lemma {:induction false} LostSnoc(q: Question, top: set<ClaimId>, some: seq<ClaimId>, x: ClaimId, zones: Zones)
    requires Claims(q, top) && x in q.h.claims
    ensures Lost(q, top, some + [x], zones) == Lost(q, top, some, zones) + if DominatedIn(q, top, x, zones) then {x} else {}
  {
  }

  lemma {:induction false} BeatenSnoc(q: Question, some: seq<ClaimId>, x: ClaimId, c: ClaimId, zones: Zones)
    requires x in q.h.claims && c in q.h.claims
    ensures BeatenAmong(q, some + [x], c, zones) == BeatenAmong(q, some, c, zones) + if Beats(q, c, x, zones) then {x} else {}
  {
  }

  lemma {:induction false} BeatenAll(q: Question, active: seq<ClaimId>, c: ClaimId, zones: Zones)
    requires Claims(q, Elements(active)) && c in q.h.claims
    ensures BeatenAmong(q, active, c, zones) == DominatedBy(q, Elements(active), c, zones)
  {
  }

  lemma {:induction false} UndominatedRest(q: Question, active: seq<ClaimId>, dominated: set<ClaimId>, zones: Zones)
    requires Claims(q, Elements(active))
    requires dominated == Lost(q, Elements(active), active, zones)
    ensures Elements(active) - dominated == UndominatedOf(q, Elements(active), zones)
  {
  }

  lemma {:induction false} ComparableAll(q: Question, active: seq<ClaimId>, zones: Zones)
    requires Claims(q, Elements(active))
    requires forall x | 0 <= x < |active| :: active[x] in q.h.claims && Answers(q, active, active[x], zones)
    ensures !Incomparable(q, Elements(active), zones)
  {
    forall a, b | a in Elements(active) && b in Elements(active) ensures SourceOrder(q.h.claims[a], q.h.claims[b], zones).Ok? {
      var x :| 0 <= x < |active| && active[x] == b;
    }
  }

  lemma {:induction false} NotComparable(q: Question, active: seq<ClaimId>, left: ClaimId, zones: Zones)
    requires Claims(q, Elements(active)) && left in active
    requires left in q.h.claims && !Answers(q, active, left, zones)
    ensures Incomparable(q, Elements(active), zones)
  {
    var y :| y in active && y in q.h.claims && SourceOrder(q.h.claims[y], q.h.claims[left], zones).Err?;
    assert y in Elements(active) && left in Elements(active);
  }

  ghost predicate AllAnswer(q: Question, active: seq<ClaimId>, some: seq<ClaimId>, zones: Zones)
    requires Claims(q, Elements(active))
  {
    forall x | x in some && x in q.h.claims :: Answers(q, active, x, zones)
  }

  /** After comparing everything with the claims of `some`. */
  ghost predicate Compared(q: Question, active: seq<ClaimId>, some: seq<ClaimId>, dominated: set<ClaimId>,
                           start: map<ClaimId, set<ClaimId>>, superseded: map<ClaimId, set<ClaimId>>, zones: Zones)
    requires Claims(q, Elements(active))
  {
    && AllAnswer(q, active, some, zones)
    && dominated == Lost(q, Elements(active), some, zones)
    && Noted(q, active, some, start, superseded, zones)
  }

  lemma {:induction false} ComparedStep(q: Question, active: seq<ClaimId>, some: seq<ClaimId>, left: ClaimId, dominated: set<ClaimId>, start: map<ClaimId, set<ClaimId>>,
                                        before: map<ClaimId, set<ClaimId>>, after: map<ClaimId, set<ClaimId>>, zones: Zones)
    requires Claims(q, Elements(active)) && left in q.h.claims && Compared(q, active, some, dominated, start, before, zones)
    requires Answers(q, active, left, zones) && NotedOne(q, active, left, before, after, zones)
    ensures Compared(q, active, some + [left], dominated + (if DominatedIn(q, Elements(active), left, zones) then {left} else {}), start, after, zones)
  {
    LostSnoc(q, Elements(active), some, left, zones);
    NotedStep(q, active, some, left, start, before, after, zones);
  }

  lemma {:induction false} ComparedEvery(q: Question, active: seq<ClaimId>, dominated: set<ClaimId>, start: map<ClaimId, set<ClaimId>>,
                                         superseded: map<ClaimId, set<ClaimId>>, zones: Zones)
    requires Claims(q, Elements(active)) && Compared(q, active, active, dominated, start, superseded, zones)
    ensures !Incomparable(q, Elements(active), zones)
    ensures Elements(active) - dominated == UndominatedOf(q, Elements(active), zones)
    ensures forall c | c in active && c in q.h.claims :: Entry(superseded, c) == Entry(start, c) + DominatedBy(q, Elements(active), c, zones)
  {
    forall x | 0 <= x < |active| ensures active[x] in q.h.claims && Answers(q, active, active[x], zones) {
      assert active[x] in Elements(active);
    }
    ComparableAll(q, active, zones);
    UndominatedRest(q, active, dominated, zones);
    forall c | c in active && c in q.h.claims ensures Entry(superseded, c) == Entry(start, c) + DominatedBy(q, Elements(active), c, zones) {
      BeatenAll(q, active, c, zones);
    }
  }

  /** One more claim compared with everything. */
  method CompareNext(q: Question, active: seq<ClaimId>, ghost some: seq<ClaimId>, left: ClaimId, zones: Zones, dominated: set<ClaimId>,
                     ghost start: map<ClaimId, set<ClaimId>>, before: map<ClaimId, set<ClaimId>>)
    returns (r: Result<set<ClaimId>, ProjectionError>, superseded: map<ClaimId, set<ClaimId>>)
    requires Claims(q, Elements(active)) && left in active && left in q.h.claims
    requires Compared(q, active, some, dominated, start, before, zones)
    ensures r.Ok? ==> Compared(q, active, some + [left], r.value, start, superseded, zones)
    ensures r.Err? ==> Incomparable(q, Elements(active), zones)
  {
    var lost;
    lost, superseded := CompareOne(q, active, left, zones, before);
    if lost.Err? {
      NotComparable(q, active, left, zones);
      return Err(lost.error), superseded;
    }
    ComparedStep(q, active, some, left, dominated, start, before, superseded, zones);
    r := Ok(if lost.value then dominated + {left} else dominated + {});
  }

  /** Every pair is compared, a claim with itself included. */
  method CompareAll(q: Question, active: seq<ClaimId>, zones: Zones, start: map<ClaimId, set<ClaimId>>)
    returns (r: Result<set<ClaimId>, ProjectionError>, superseded: map<ClaimId, set<ClaimId>>)
    requires Claims(q, Elements(active))
    ensures r.Ok? <==> !Incomparable(q, Elements(active), zones)
    ensures r.Ok? ==> Elements(active) - r.value == UndominatedOf(q, Elements(active), zones)
    ensures r.Ok? ==> forall c | c in active && c in q.h.claims ::
      Entry(superseded, c) == Entry(start, c) + DominatedBy(q, Elements(active), c, zones)
  {
    r := Ok({});
    superseded := start;
    for i := 0 to |active|
      invariant r.Ok? && Compared(q, active, active[..i], r.value, start, superseded, zones)
    {
      assert active[i] in Elements(active);
      assert active[..i + 1] == active[..i] + [active[i]];
      r, superseded := CompareNext(q, active, active[..i], active[i], zones, r.value, start, superseded);
      if r.Err? {
        return;
      }
    }
    assert active[..|active|] == active;
    ComparedEvery(q, active, r.value, start, superseded, zones);
  }

  predicate Clash(q: Question, a: ClaimId, b: ClaimId)
    requires a in q.h.claims && b in q.h.claims
  {
    q.h.claims[a].sourcing != q.h.claims[b].sourcing && q.h.claims[a].value != q.h.claims[b].value
  }

  /** A user and a supplier both stand, and two claims of different sourcing disagree. */
  method FindContest(q: Question, active: seq<ClaimId>) returns (contested: bool)
    requires Claims(q, Elements(active))
    ensures contested == Contested(q, Elements(active))
  {
    var user, supplier, differ := false, false, false;
    for i := 0 to |active|
      invariant user <==> exists x :: 0 <= x < i && q.h.claims[active[x]].sourcing == User
      invariant supplier <==> exists x :: 0 <= x < i && q.h.claims[active[x]].sourcing == Supplier
      invariant differ <==> exists x, y :: 0 <= x < i && 0 <= y < |active| && Clash(q, active[x], active[y])
    {
      var left := q.h.claims[active[i]];
      user := user || left.sourcing == User;
      supplier := supplier || left.sourcing == Supplier;
      ghost var so := differ;
      for j := 0 to |active|
        invariant differ <==> so || exists y :: 0 <= y < j && Clash(q, active[i], active[y])
      {
        var right := q.h.claims[active[j]];
        differ := differ || (left.sourcing != right.sourcing && left.value != right.value);
      }
    }
    contested := user && supplier && differ;
    var s := Elements(active);
    assert forall x | 0 <= x < |active| :: active[x] in s;
    assert forall c | c in s :: exists x :: 0 <= x < |active| && active[x] == c;
  }

  function Beaten(q: Question, kept: set<ClaimId>, c: ClaimId, zones: Zones): set<ClaimId>
    requires Claims(q, kept) && c in q.h.claims
  {
    if c in ComparedAmong(q, kept) then DominatedBy(q, ComparedAmong(q, kept), c, zones) else {}
  }

  lemma {:induction false} LeftIsBeaten(q: Question, kept: seq<ClaimId>, top: seq<ClaimId>, left: seq<ClaimId>, zones: Zones,
                                        start: map<ClaimId, set<ClaimId>>, superseded: map<ClaimId, set<ClaimId>>)
    requires Claims(q, Elements(kept)) && Claims(q, Elements(top))
    requires Elements(top) == ComparedAmong(q, Elements(kept)) && Elements(left) <= Elements(top)
    requires forall c | c in top && c in q.h.claims ::
      Entry(superseded, c) == Entry(start, c) + DominatedBy(q, Elements(top), c, zones)
    ensures forall c | c in left ::
      (c in q.h.claims && Entry(superseded, c) == Entry(start, c) + Beaten(q, Elements(kept), c, zones))
  {
    forall c | c in left
      ensures c in q.h.claims && Entry(superseded, c) == Entry(start, c) + Beaten(q, Elements(kept), c, zones)
    {
      assert c in Elements(left);
      assert c in Elements(top) && c in top;
    }
  }

  /** What is left of the kept claims, and what each of them superseded by coming later. */
  method Decide(q: Question, kept: seq<ClaimId>, zones: Zones, start: map<ClaimId, set<ClaimId>>)
    returns (r: Result<seq<ClaimId>, ProjectionError>, superseded: map<ClaimId, set<ClaimId>>)
    requires Increasing(kept) && Claims(q, Elements(kept))
    ensures r.Ok? <==> !Incomparable(q, ComparedAmong(q, Elements(kept)), zones)
    ensures r.Ok? ==> Increasing(r.value) && Elements(r.value) == WinnersAmong(q, Elements(kept), zones)
    ensures r.Ok? ==> forall c | c in r.value :: Entry(superseded, c) == Entry(start, c) + Beaten(q, Elements(kept), c, zones)
  {
    var contested := FindContest(q, kept);
    superseded := start;
    if contested {
      return Ok(kept), superseded;
    }
    var most := MaxAuthority(q, kept);
    var lower := set c | c in kept && q.h.claims[c].authority != most;
    var top := Retain(kept, lower);
    TopIs(q, kept, most, top);
    assert top != [] ==> top[0] in Elements(top);
    if top != [] && q.h.claims[top[0]].supersession == BySourceOrder {
      FirstIsLowest(top);
      var dominated;
      dominated, superseded := CompareAll(q, top, zones, start);
      match dominated {
        case Err(e) => return Err(e), superseded;
        case Ok(gone) =>
          var left := Retain(top, gone);
          LeftIsBeaten(q, kept, top, left, zones, start, superseded);
          return Ok(left), superseded;
      }
    }
    if top != [] { FirstIsLowest(top); }
    r := Ok(top);
  }

  lemma {:induction false} TopIs(q: Question, kept: seq<ClaimId>, most: nat, top: seq<ClaimId>)
    requires Claims(q, Elements(kept))
    requires forall c | c in kept :: q.h.claims[c].authority <= most
    requires kept != [] ==> exists c :: c in kept && q.h.claims[c].authority == most
    requires Elements(top) == Elements(kept) - set c | c in kept && q.h.claims[c].authority != most
    ensures Elements(top) == TopOf(q, Elements(kept))
  {
    forall c ensures c in Elements(top) <==> c in TopOf(q, Elements(kept)) {
      if c in TopOf(q, Elements(kept)) {
        var d :| d in kept && q.h.claims[d].authority == most;
        assert d in Elements(kept);
      }
    }
  }

  lemma {:induction false} FirstIsLowest(s: seq<ClaimId>)
    requires Increasing(s) && s != []
    ensures Elements(s) != {} && Lowest(Elements(s)) == s[0]
  {
    assert s[0] in Elements(s);
  }

  // ------------------------------------------------------------- one slot

  lemma {:induction false} CandidateSnoc(q: Question, standing: set<ClaimId>, compared: set<ClaimId>, ids: seq<ClaimId>, c: ClaimId, zones: Zones)
    requires Claims(q, compared) && Counted(q, ids + [c], zones)
    ensures c in q.h.claims && Counts(q, c, zones) && Counted(q, ids, zones)
    ensures CandidateList(q, standing, compared, ids + [c], zones)
         == CandidateList(q, standing, compared, ids, zones) + [CandidateOf(q, standing, compared, c, zones)]
    decreases |ids|
  {
    assert c in ids + [c];
    forall x | x in ids ensures x in ids + [c] {
    }
    if ids == [] {
      assert [c][1..] == [];
      assert ids + [c] == [c];
    } else {
      assert (ids + [c])[1..] == ids[1..] + [c];
      CandidateSnoc(q, standing, compared, ids[1..], c, zones);
    }
  }

  /** What the winners superseded is what their entries say. */
  ghost predicate EntriesFit(q: Question, standing: set<ClaimId>, compared: set<ClaimId>, winners: seq<ClaimId>,
                             superseded: map<ClaimId, set<ClaimId>>, zones: Zones)
    requires Claims(q, compared)
  {
    forall c | c in winners && c in q.h.claims :: Entry(superseded, c) == SupersededBy(q, standing, compared, c, zones)
  }

  method Describe(q: Question, standing: set<ClaimId>, compared: set<ClaimId>, winners: seq<ClaimId>,
                  superseded: map<ClaimId, set<ClaimId>>, zones: Zones) returns (list: seq<Candidate>)
    requires Claims(q, compared) && Counted(q, winners, zones)
    requires EntriesFit(q, standing, compared, winners, superseded, zones)
    ensures list == CandidateList(q, standing, compared, winners, zones)
  {
    list := [];
    for i := 0 to |winners|
      invariant Counted(q, winners[..i], zones) && list == CandidateList(q, standing, compared, winners[..i], zones)
    {
      var c := winners[i];
      assert winners[..i + 1] == winners[..i] + [c];
      CandidateSnoc(q, standing, compared, winners[..i], c, zones);
      list := list + [Candidate(c, q.h.claims[c].value, q.h.claims[c].sourcing, CertaintyOf(q, c, zones), Ascending(Entry(superseded, c)))];
    }
    assert winners[..|winners|] == winners;
  }

  function PairsAmong(q: Question, winners: set<ClaimId>): set<Proposal>
    requires Claims(q, winners)
  {
    set a, b | a in winners && b in winners && a < b && q.h.claims[a].value != q.h.claims[b].value :: Proposal(a, b)
  }

  /** Every later candidate against every earlier one; the pair is put in order. */
  method Propose(q: Question, winners: seq<ClaimId>) returns (proposals: set<Proposal>)
    requires Increasing(winners) && Claims(q, Elements(winners))
    ensures proposals == PairsAmong(q, Elements(winners))
  {
    proposals := {};
    assert forall x | 0 <= x < |winners| :: winners[x] in Elements(winners);
    for i := 0 to |winners|
      invariant forall p :: p in proposals <==> exists x, y :: 0 <= x < i && x < y < |winners| && Pair(q, winners[x], winners[y], p)
    {
      ghost var before := proposals;
      for j := i + 1 to |winners|
        invariant forall p :: p in proposals <==> p in before || exists y :: i < y < j && Pair(q, winners[i], winners[y], p)
      {
        if q.h.claims[winners[i]].value != q.h.claims[winners[j]].value {
          var a, b := winners[i], winners[j];
          proposals := proposals + {if a <= b then Proposal(a, b) else Proposal(b, a)};
        }
      }
    }
    PairsFound(q, winners, proposals);
  }

  predicate Pair(q: Question, a: ClaimId, b: ClaimId, p: Proposal)
    requires a in q.h.claims && b in q.h.claims
  {
    p == Proposal(a, b) && q.h.claims[a].value != q.h.claims[b].value
  }

  lemma {:induction false} PairsFound(q: Question, winners: seq<ClaimId>, proposals: set<Proposal>)
    requires Increasing(winners) && Claims(q, Elements(winners))
    requires forall x | 0 <= x < |winners| :: winners[x] in q.h.claims
    requires forall p :: p in proposals <==> exists x, y :: 0 <= x < |winners| && x < y < |winners| && Pair(q, winners[x], winners[y], p)
    ensures proposals == PairsAmong(q, Elements(winners))
  {
    forall p ensures p in proposals <==> p in PairsAmong(q, Elements(winners)) {
      if p in PairsAmong(q, Elements(winners)) {
        var x :| 0 <= x < |winners| && winners[x] == p.left;
        var y :| 0 <= y < |winners| && winners[y] == p.right;
        assert Pair(q, winners[x], winners[y], p);
      }
    }
  }

  method SameValue(q: Question, winners: seq<ClaimId>) returns (same: bool)
    requires Claims(q, Elements(winners))
    ensures same == Agree(q, Elements(winners))
  {
    same := true;
    assert forall x | 0 <= x < |winners| :: winners[x] in Elements(winners);
    for i := 0 to |winners|
      invariant same <==> forall x | 0 <= x < i :: q.h.claims[winners[x]].value == q.h.claims[winners[0]].value
    {
      same := same && q.h.claims[winners[i]].value == q.h.claims[winners[0]].value;
    }
    if same {
      forall c, d | c in Elements(winners) && d in Elements(winners) ensures q.h.claims[c].value == q.h.claims[d].value {
        var x :| 0 <= x < |winners| && winners[x] == c;
        var y :| 0 <= y < |winners| && winners[y] == d;
      }
    }
  }

  /** One slot, from the claims grouped under it. */
  method ResolveSlot(q: Question, slot: SlotId, all: seq<ClaimId>, retracted: set<ClaimId>, zones: Zones)
    returns (r: Result<SlotState, ProjectionError>, proposals: set<Proposal>)
    requires Increasing(all) && Elements(all) == CandidatesOf(q, slot, zones) && retracted == RetractedIds(q)
    ensures r.Ok? <==> !StuckOn(q, slot, zones)
    ensures r.Ok? ==> r.value == StateOf(q, slot, zones)
    ensures r.Ok? && StandingOf(q, slot, zones) != {} ==> proposals == PairsAmong(q, WinnersOf(q, slot, zones))
    ensures StandingOf(q, slot, zones) == {} ==> r.Ok? && proposals == {}
  {
    proposals := {};
    var active := Retain(all, retracted);
    assert Elements(active) == StandingOf(q, slot, zones);
    assert active != [] ==> active[0] in Elements(active);
    assert all != [] ==> all[0] in Elements(all);
    if active == [] {
      NothingStands(q, slot, zones);
      return Ok(if all != [] then Retracted else Absent), {};
    }
    assert active[0] in StandingOf(q, slot, zones);
    ghost var standing := Elements(active);
    var removed, byRelation := ApplyRelations(q, active);
    var kept := Retain(active, removed);
    assert Elements(kept) == KeptAmong(q, standing);
    var decided, superseded := Decide(q, kept, zones, byRelation);
    if decided.Err? {
      return Err(decided.error), {};
    }
    var winners := decided.value;
    IncreasingIsAscending(winners);
    SubsetCounts(q, standing, Elements(winners), zones);
    var compared := ComparedAmong(q, Elements(kept));
    EntriesAreSuperseded(q, Elements(active), Elements(kept), winners, byRelation, superseded, zones);
    var list := Describe(q, Elements(active), compared, winners, superseded, zones);
    var same := SameValue(q, winners);
    if same {
      AgreementProposesNothing(q, Elements(winners));
      return Ok(Value(list)), {};
    }
    proposals := Propose(q, winners);
    r := Ok(Conflicted(list));
  }

  lemma {:induction false} NothingStands(q: Question, slot: SlotId, zones: Zones)
    requires StandingOf(q, slot, zones) == {}
    ensures !StuckOn(q, slot, zones)
  {
    assert KeptOf(q, slot, zones) == {};
    assert ComparedAmong(q, {}) == {};
  }

  lemma {:induction false} AgreementProposesNothing(q: Question, winners: set<ClaimId>)
    requires Claims(q, winners) && Agree(q, winners)
    ensures PairsAmong(q, winners) == {}
  {
  }

  lemma {:induction false} EntriesAreSuperseded(q: Question, standing: set<ClaimId>, kept: set<ClaimId>, winners: seq<ClaimId>,
                                                byRelation: map<ClaimId, set<ClaimId>>, superseded: map<ClaimId, set<ClaimId>>, zones: Zones)
    requires Claims(q, kept) && (forall c | c in winners :: c in q.h.claims)
    requires forall c: ClaimId :: Entry(byRelation, c) == RelationTargets(q, q.h.relations, standing, c)
    requires forall c | c in winners :: Entry(superseded, c) == Entry(byRelation, c) + Beaten(q, kept, c, zones)
    ensures EntriesFit(q, standing, ComparedAmong(q, kept), winners, superseded, zones)
  {
    var compared := ComparedAmong(q, kept);
    forall c | c in winners ensures Entry(superseded, c) == SupersededBy(q, standing, compared, c, zones) {
      assert Entry(byRelation, c) == RelationTargets(q, q.h.relations, standing, c);
      assert Beaten(q, kept, c, zones) == set d | d in compared && c in compared && Dominates(q.h.claims[c], q.h.claims[d], zones);
    }
  }

  // ---------------------------------------------------------------- grouping

  /** `list` is what `some` contributes to a slot, in order. */
  ghost predicate Collects(q: Question, some: seq<ClaimId>, s: SlotId, list: seq<ClaimId>, zones: Zones) {
    Increasing(list) && (forall x :: x in list <==> x in some && x in CandidatesOf(q, s, zones))
  }

  ghost predicate Opened(q: Question, some: seq<ClaimId>, s: SlotId) {
    exists c :: c in some && Known(q, c) && q.h.claims[c].slot == s
  }

  /** The slots and candidates found among the claims looked at so far. */
  ghost predicate Grouped(q: Question, some: seq<ClaimId>, grouped: map<SlotId, seq<ClaimId>>, zones: Zones) {
    && (forall s: SlotId :: s in grouped <==> Opened(q, some, s))
    && (forall s | s in grouped :: Collects(q, some, s, grouped[s], zones))
  }

  lemma {:induction false} OpenedSnoc(q: Question, some: seq<ClaimId>, c: ClaimId, s: SlotId)
    ensures Opened(q, some + [c], s) <==> Opened(q, some, s) || (Known(q, c) && q.h.claims[c].slot == s)
  {
    assert c in some + [c];
    if Opened(q, some, s) {
      var x :| x in some && Known(q, x) && q.h.claims[x].slot == s;
      assert x in some + [c];
    }
  }

  lemma {:induction false} CollectsElsewhere(q: Question, some: seq<ClaimId>, c: ClaimId, s: SlotId, list: seq<ClaimId>, zones: Zones)
    requires Collects(q, some, s, list, zones) && c !in CandidatesOf(q, s, zones)
    ensures Collects(q, some + [c], s, list, zones)
  {
  }

  lemma {:induction false} CollectsHere(q: Question, some: seq<ClaimId>, c: ClaimId, s: SlotId, list: seq<ClaimId>, zones: Zones)
    requires Collects(q, some, s, list, zones) && c in CandidatesOf(q, s, zones) && (forall x | x in some :: x < c)
    ensures Collects(q, some + [c], s, list + [c], zones)
  {
    assert forall k | 0 <= k < |list| :: list[k] in list;
  }

  lemma {:induction false} CollectsNothing(q: Question, some: seq<ClaimId>, s: SlotId, zones: Zones)
    requires !Opened(q, some, s)
    ensures Collects(q, some, s, [], zones)
  {
  }

  lemma {:induction false} UnknownSkipped(q: Question, some: seq<ClaimId>, c: ClaimId, grouped: map<SlotId, seq<ClaimId>>, zones: Zones)
    requires Grouped(q, some, grouped, zones) && !Known(q, c)
    ensures Grouped(q, some + [c], grouped, zones)
  {
    forall s: SlotId ensures s in grouped <==> Opened(q, some + [c], s) {
      OpenedSnoc(q, some, c, s);
    }
    forall s | s in grouped ensures Collects(q, some + [c], s, grouped[s], zones) {
      CollectsElsewhere(q, some, c, s, grouped[s], zones);
    }
  }

  /** A known claim opens its slot, and joins it if it counts. */
  lemma {:induction false} KnownGrouped(q: Question, some: seq<ClaimId>, c: ClaimId, before: map<SlotId, seq<ClaimId>>, zones: Zones)
    requires Grouped(q, some, before, zones) && Known(q, c) && (forall x | x in some :: x < c)
    ensures var slot := q.h.claims[c].slot;
            Grouped(q, some + [c], before[slot := (if slot in before then before[slot] else []) + if Counts(q, c, zones) then [c] else []], zones)
  {
    var slot := q.h.claims[c].slot;
    var entry := if slot in before then before[slot] else [];
    var added := entry + if Counts(q, c, zones) then [c] else [];
    forall s: SlotId ensures s in before[slot := added] <==> Opened(q, some + [c], s) {
      OpenedSnoc(q, some, c, s);
    }
    var after := before[slot := added];
    forall s | s in after ensures Collects(q, some + [c], s, after[s], zones) {
      if s != slot {
        CollectsElsewhere(q, some, c, s, before[s], zones);
      } else {
        if slot !in before { CollectsNothing(q, some, slot, zones); }
        Joined(q, some, c, slot, entry, zones);
      }
    }
  }

  lemma {:induction false} Joined(q: Question, some: seq<ClaimId>, c: ClaimId, slot: SlotId, entry: seq<ClaimId>, zones: Zones)
    requires Known(q, c) && slot == q.h.claims[c].slot && Collects(q, some, slot, entry, zones) && (forall x | x in some :: x < c)
    ensures Collects(q, some + [c], slot, entry + if Counts(q, c, zones) then [c] else [], zones)
  {
    if Counts(q, c, zones) {
      CollectsHere(q, some, c, slot, entry, zones);
    } else {
      CollectsElsewhere(q, some, c, slot, entry, zones);
      assert entry + [] == entry;
    }
  }

  /** A claim's place in the grouping, or the error that stops it. */
  method PlaceClaim(q: Question, c: ClaimId, before: map<SlotId, seq<ClaimId>>, zones: Zones)
    returns (r: Result<map<SlotId, seq<ClaimId>>, ProjectionError>)
    requires c in q.h.claims
    ensures r.Ok? <==> Placeable(q, c, zones)
    ensures r.Ok? ==> r.value == PlacedIn(q, c, before, zones)
  {
    if !WithinTx(q.h.claims[c].tx, q.knowledge) {
      return Ok(before);
    }
    match Coverage(q.h.claims[c], q.query, zones)
    case Err(e) => return Err(e);
    case Ok(covers) =>
      var slot := q.h.claims[c].slot;
      var entry := if slot in before then before[slot] else [];
      assert entry + [] == entry;
      if covers.Some? && (covers.value.Definite? || q.policy.possibleCounts) {
        entry := entry + [c];
      }
      r := Ok(before[slot := entry]);
  }

  /** A known claim opens its slot, and joins it if it counts. */
  ghost function PlacedIn(q: Question, c: ClaimId, before: map<SlotId, seq<ClaimId>>, zones: Zones): map<SlotId, seq<ClaimId>>
    requires c in q.h.claims
  {
    if Known(q, c) then
      var slot := q.h.claims[c].slot;
      before[slot := (if slot in before then before[slot] else []) + if Counts(q, c, zones) then [c] else []]
    else before
  }

  lemma {:induction false} GroupedStep(q: Question, some: seq<ClaimId>, c: ClaimId, before: map<SlotId, seq<ClaimId>>, zones: Zones)
    requires c in q.h.claims && Grouped(q, some, before, zones) && (forall x | x in some :: x < c)
    ensures Grouped(q, some + [c], PlacedIn(q, c, before, zones), zones)
  {
    if Known(q, c) {
      KnownGrouped(q, some, c, before, zones);
    } else {
      UnknownSkipped(q, some, c, before, zones);
    }
  }

  ghost predicate AllPlaceable(q: Question, some: seq<ClaimId>, zones: Zones) {
    forall c | c in some :: Placeable(q, c, zones)
  }

  ghost predicate Placeable(q: Question, c: ClaimId, zones: Zones) {
    Known(q, c) ==> Coverage(q.h.claims[c], q.query, zones).Ok?
  }

  lemma {:induction false} EveryPlaceable(q: Question, ids: seq<ClaimId>, zones: Zones)
    requires ids == Ascending(q.h.claims.Keys)
    ensures AllPlaceable(q, ids, zones) <==> forall c: ClaimId :: Placeable(q, c, zones)
  {
    AscendingLists(q.h.claims.Keys);
    assert forall c :: c in ids <==> c in Elements(ids);
  }

  lemma {:induction false} NextInOrder(ids: seq<ClaimId>, i: nat)
    requires Increasing(ids) && i < |ids|
    ensures ids[..i + 1] == ids[..i] + [ids[i]] && ids[i] in ids && forall x | x in ids[..i] :: x < ids[i]
  {
  }

  method Group(q: Question, zones: Zones) returns (r: Result<map<SlotId, seq<ClaimId>>, ProjectionError>)
    ensures r.Ok? <==> forall c: ClaimId :: Placeable(q, c, zones)
    ensures r.Ok? ==> Grouped(q, Ascending(q.h.claims.Keys), r.value, zones)
  {
    var grouped: map<SlotId, seq<ClaimId>> := map[];
    var ids := Ascending(q.h.claims.Keys);
    AscendingLists(q.h.claims.Keys);
    EveryPlaceable(q, ids, zones);
    for i := 0 to |ids|
      invariant AllPlaceable(q, ids[..i], zones)
      invariant Grouped(q, ids[..i], grouped, zones)
    {
      var c := ids[i];
      NextInOrder(ids, i);
      assert c in Elements(ids);
      var placed := PlaceClaim(q, c, grouped, zones);
      if placed.Err? {
        return Err(placed.error);
      }
      GroupedStep(q, ids[..i], c, grouped, zones);
      grouped := placed.value;
    }
    assert ids[..|ids|] == ids;
    r := Ok(grouped);
  }

  lemma {:induction false} GroupedAll(q: Question, ids: seq<ClaimId>, grouped: map<SlotId, seq<ClaimId>>, zones: Zones)
    requires Grouped(q, ids, grouped, zones) && forall c :: c in ids <==> c in q.h.claims
    ensures grouped.Keys == SlotsKnown(q)
    ensures forall s | s in grouped :: Increasing(grouped[s]) && Elements(grouped[s]) == CandidatesOf(q, s, zones)
  {
    forall s ensures s in grouped.Keys <==> s in SlotsKnown(q) {
      if s in grouped {
        var c :| c in ids && Known(q, c) && q.h.claims[c].slot == s;
      }
    }
  }

  // --------------------------------------------------------------- the whole

  lemma {:induction false} ViewSnoc(q: Question, slots: seq<SlotId>, s: SlotId, zones: Zones)
    ensures ViewsOf(q, slots + [s], zones) == ViewsOf(q, slots, zones) + [SlotView(s, StateOf(q, s, zones))]
    decreases |slots|
  {
    if slots == [] {
      assert [s][1..] == [];
    } else {
      assert (slots + [s])[1..] == slots[1..] + [s];
      ViewSnoc(q, slots[1..], s, zones);
    }
  }

  function ProposalsIn(q: Question, slots: seq<SlotId>, zones: Zones): set<Proposal> {
    set s, p | s in slots && p in ProposalsFor(q, s, zones) :: p
  }

  lemma {:induction false} ProposalsSnoc(q: Question, slots: seq<SlotId>, s: SlotId, zones: Zones)
    ensures ProposalsIn(q, slots + [s], zones) == ProposalsIn(q, slots, zones) + ProposalsFor(q, s, zones)
  {
    forall p ensures p in ProposalsIn(q, slots + [s], zones) <==> p in ProposalsIn(q, slots, zones) + ProposalsFor(q, s, zones) {
      if p in ProposalsFor(q, s, zones) {
        assert s in slots + [s];
      }
      if x :| x in slots && p in ProposalsFor(q, x, zones) {
        assert x in slots + [s];
      }
    }
  }

  lemma {:induction false} ProposalsAre(q: Question, slot: SlotId, zones: Zones)
    ensures ProposalsFor(q, slot, zones) == PairsAmong(q, WinnersOf(q, slot, zones))
    ensures StandingOf(q, slot, zones) == {} ==> ProposalsFor(q, slot, zones) == {}
  {
  }

  /** The projection succeeds exactly when every time it needs resolves, and then it
      computes the view the definitions describe. */
  method Project(h: History, asOf: AsOf, policy: Policy, zones: Zones) returns (r: Result<View, ProjectionError>)
    ensures !policy.supported ==> r == Err(UnsupportedTimeZoneDatabase)
    ensures policy.supported && QueryWindow(asOf.valid, zones).Err? ==> r.Err?
    ensures policy.supported && QueryWindow(asOf.valid, zones).Ok? ==>
      var q := Question(h, asOf.knowledge, QueryWindow(asOf.valid, zones).value, policy);
      (r.Ok? <==> !Unresolvable(q, zones)) && (r.Ok? ==> r.value == ViewOf(q, zones))
  {
    if !policy.supported {
      return Err(UnsupportedTimeZoneDatabase);
    }
    var window := QueryWindow(asOf.valid, zones);
    if window.Err? {
      return Err(window.error);
    }
    var q := Question(h, asOf.knowledge, window.value, policy);
    var groups := Group(q, zones);
    if groups.Err? {
      ghost var c: ClaimId :| !Placeable(q, c, zones);
      return Err(groups.error);
    }
    AscendingLists(h.claims.Keys);
    assert forall c :: c in Ascending(h.claims.Keys) <==> c in Elements(Ascending(h.claims.Keys));
    GroupedAll(q, Ascending(h.claims.Keys), groups.value, zones);
    assert forall c | Known(q, c) :: Placeable(q, c, zones);
    r := ProjectGroups(q, groups.value, zones);
  }

  /** What has been collected once the slots of `done` are projected. */
  ghost predicate SoFar(q: Question, done: seq<SlotId>, views: seq<SlotView>, proposals: set<Proposal>, zones: Zones) {
    && (forall s | s in done :: !StuckOn(q, s, zones))
    && views == ViewsOf(q, done, zones) && proposals == ProposalsIn(q, done, zones)
  }

  /** One slot's entry and proposals, added to what was found before. */
  method AddSlot(q: Question, slot: SlotId, all: seq<ClaimId>, zones: Zones, views: seq<SlotView>, proposals: set<Proposal>, ghost done: seq<SlotId>)
    returns (r: Result<(seq<SlotView>, set<Proposal>), ProjectionError>)
    requires Increasing(all) && Elements(all) == CandidatesOf(q, slot, zones) && SoFar(q, done, views, proposals, zones)
    ensures r.Ok? <==> !StuckOn(q, slot, zones)
    ensures r.Ok? ==> SoFar(q, done + [slot], r.value.0, r.value.1, zones)
  {
    var state, more := ResolveSlot(q, slot, all, RetractedIds(q), zones);
    ProposalsAre(q, slot, zones);
    if state.Err? {
      return Err(state.error);
    }
    ViewSnoc(q, done, slot, zones);
    ProposalsSnoc(q, done, slot, zones);
    r := Ok((views + [SlotView(slot, state.value)], proposals + more));
  }

  ghost predicate GroupedBySlot(q: Question, grouped: map<SlotId, seq<ClaimId>>, zones: Zones) {
    && grouped.Keys == SlotsKnown(q)
    && forall s | s in grouped :: Increasing(grouped[s]) && Elements(grouped[s]) == CandidatesOf(q, s, zones)
  }

  lemma {:induction false} GroupOf(q: Question, grouped: map<SlotId, seq<ClaimId>>, zones: Zones, slot: SlotId)
    requires GroupedBySlot(q, grouped, zones) && slot in Ascending(grouped.Keys)
    ensures slot in SlotsKnown(q) && slot in grouped
    ensures Increasing(grouped[slot]) && Elements(grouped[slot]) == CandidatesOf(q, slot, zones)
  {
    AscendingLists(grouped.Keys);
    assert slot in Elements(Ascending(grouped.Keys));
  }

  method ProjectGroups(q: Question, grouped: map<SlotId, seq<ClaimId>>, zones: Zones) returns (r: Result<View, ProjectionError>)
    requires GroupedBySlot(q, grouped, zones)
    ensures r.Ok? <==> forall s: SlotId | s in SlotsKnown(q) :: !StuckOn(q, s, zones)
    ensures r.Ok? ==> r.value == ViewOf(q, zones)
  {
    var slots := Ascending(grouped.Keys);
    var views: seq<SlotView> := [];
    var proposals: set<Proposal> := {};
    for i := 0 to |slots|
      invariant SoFar(q, slots[..i], views, proposals, zones)
    {
      var slot := slots[i];
      GroupOf(q, grouped, zones, slot);
      assert slots[..i + 1] == slots[..i] + [slot];
      var added := AddSlot(q, slot, grouped[slot], zones, views, proposals, slots[..i]);
      if added.Err? {
        return Err(added.error);
      }
      views, proposals := added.value.0, added.value.1;
    }
    assert slots[..|slots|] == slots;
    SoFarIsAll(q, slots, views, proposals, zones);
    r := Ok(View(views, proposals));
  }

  lemma {:induction false} SoFarIsAll(q: Question, slots: seq<SlotId>, views: seq<SlotView>, proposals: set<Proposal>, zones: Zones)
    requires slots == Ascending(SlotsKnown(q)) && SoFar(q, slots, views, proposals, zones)
    ensures forall s: SlotId | s in SlotsKnown(q) :: !StuckOn(q, s, zones)
    ensures View(views, proposals) == ViewOf(q, zones)
  {
    AscendingLists(SlotsKnown(q));
    assert forall s :: s in slots <==> s in Elements(slots);
    AllProposals(q, slots, zones);
  }

  lemma {:induction false} AllProposals(q: Question, slots: seq<SlotId>, zones: Zones)
    requires forall s :: s in slots <==> s in SlotsKnown(q)
    ensures ProposalsIn(q, slots, zones) == ProposalsOf(q, zones)
  {
  }
}
