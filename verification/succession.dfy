/** Supersession chains: the `superseded_by` column read as a partial function. */
module Succession {


  type MemoryId = nat

  /** A nonempty walk along the successor links. */
  ghost predicate Walk(next: map<MemoryId, MemoryId>, p: seq<MemoryId>) {
    |p| > 0 && forall i | 0 <= i < |p| - 1 :: p[i] in next && next[p[i]] == p[i + 1]
  }

  ghost predicate WalkFromTo(next: map<MemoryId, MemoryId>, p: seq<MemoryId>, a: MemoryId, b: MemoryId) {
    Walk(next, p) && p[0] == a && p[|p| - 1] == b
  }

  ghost predicate Reaches(next: map<MemoryId, MemoryId>, a: MemoryId, b: MemoryId) {
    exists p :: WalkFromTo(next, p, a, b)
  }

  /** No walk of at least one step comes back to where it began. */
  ghost predicate Acyclic(next: map<MemoryId, MemoryId>) {
    forall p | Walk(next, p) && |p| >= 2 :: p[0] != p[|p| - 1]
  }

  /** The recursive query of the committing statement. `UNION` discards what it
      has seen, so the query ends even on a cycle. */
  function Successors(next: map<MemoryId, MemoryId>, start: MemoryId): set<MemoryId> {
    Closure(next, start, {})
  }

  function Closure(next: map<MemoryId, MemoryId>, at: MemoryId, seen: set<MemoryId>): set<MemoryId>
    decreases next.Keys - seen
  {
    if at in seen then seen
    else if at in next then Closure(next, next[at], seen + {at})
    else seen + {at}
  }

  lemma {:induction false} ClosureSound(next: map<MemoryId, MemoryId>, start: MemoryId, p: seq<MemoryId>, at: MemoryId, seen: set<MemoryId>, y: MemoryId)
    requires WalkFromTo(next, p, start, at)
    requires forall x | x in seen :: Reaches(next, start, x)
    requires y in Closure(next, at, seen)
    ensures Reaches(next, start, y)
    decreases next.Keys - seen
  {
    if at in seen {
    } else if at in next {
      var q := p + [next[at]];
      assert WalkFromTo(next, q, start, next[at]);
      assert Reaches(next, start, at);
      ClosureSound(next, start, q, next[at], seen + {at}, y);
    } else {
      assert WalkFromTo(next, p, start, at);
    }
  }

  /** What has been seen already leads only to what has been seen or to `at`. */
  ghost predicate Frontier(next: map<MemoryId, MemoryId>, at: MemoryId, seen: set<MemoryId>) {
    forall x | x in seen && x in next :: next[x] in seen || next[x] == at
  }

  lemma {:induction false} ClosureClosed(next: map<MemoryId, MemoryId>, at: MemoryId, seen: set<MemoryId>)
    requires Frontier(next, at, seen)
    ensures seen <= Closure(next, at, seen) && at in Closure(next, at, seen)
    ensures forall x | x in Closure(next, at, seen) && x in next :: next[x] in Closure(next, at, seen)
    decreases next.Keys - seen
  {
    if at !in seen && at in next {
      ClosureClosed(next, next[at], seen + {at});
    }
  }

  /** The recursive query answers reachability, on every table, cyclic or not. */
  lemma {:induction false} SuccessorsAreReachable(next: map<MemoryId, MemoryId>, start: MemoryId, y: MemoryId)
    ensures y in Successors(next, start) <==> Reaches(next, start, y)
  {
    assert WalkFromTo(next, [start], start, start);
    if y in Successors(next, start) {
      ClosureSound(next, start, [start], start, {}, y);
    }
    if Reaches(next, start, y) {
      var p :| WalkFromTo(next, p, start, y);
      ClosureClosed(next, start, {});
      WalkStaysInside(next, Successors(next, start), p);
    }
  }

  lemma {:induction false} WalkStaysInside(next: map<MemoryId, MemoryId>, inside: set<MemoryId>, p: seq<MemoryId>)
    requires Walk(next, p) && p[0] in inside
    requires forall x | x in inside && x in next :: next[x] in inside
    ensures p[|p| - 1] in inside
    decreases |p|
  {
    if |p| > 1 {
      WalkStaysInside(next, inside, p[1..]);
    }
  }

  /** A walk of the updated table that reaches `prior` has a part that reached it
      before the update: what precedes the first visit to `prior`. */
  lemma {:induction false} BeforeFirstVisit(next: map<MemoryId, MemoryId>, prior: MemoryId, heir: MemoryId, p: seq<MemoryId>)
    requires Walk(next[prior := heir], p) && p[|p| - 1] == prior
    ensures Reaches(next, p[0], prior)
    decreases |p|
  {
    if p[0] == prior {
      assert WalkFromTo(next, [prior], prior, prior);
    } else {
      BeforeFirstVisit(next, prior, heir, p[1..]);
      var q :| WalkFromTo(next, q, p[1], prior);
      assert WalkFromTo(next, [p[0]] + q, p[0], prior);
    }
  }

  /** A closed walk may be entered at any of its steps. */
  lemma {:induction false} Rotated(next: map<MemoryId, MemoryId>, p: seq<MemoryId>, i: nat, around: seq<MemoryId>)
    requires Walk(next, p) && i + 1 < |p| && p[0] == p[|p| - 1] && around == p[i + 1..] + p[1..i + 1]
    ensures WalkFromTo(next, around, p[i + 1], p[i])
  {
    var first := |p| - i - 1;
    forall k | 0 <= k < |around| - 1 ensures around[k] in next && next[around[k]] == around[k + 1] {
      if k < first - 1 {
        assert around[k] == p[i + 1 + k] && around[k + 1] == p[i + 2 + k];
      } else {
        var j := k - first + 1;
        assert around[k] == p[j] && around[k + 1] == p[j + 1];
      }
    }
  }

  lemma {:induction false} NoNewCycle(next: map<MemoryId, MemoryId>, prior: MemoryId, heir: MemoryId, p: seq<MemoryId>)
    requires Acyclic(next) && !Reaches(next, heir, prior)
    requires Walk(next[prior := heir], p) && |p| >= 2
    ensures p[0] != p[|p| - 1]
  {
    if i :| 0 <= i < |p| - 1 && p[i] == prior {
      if p[0] == p[|p| - 1] {
        var around := p[i + 1..] + p[1..i + 1];
        Rotated(next[prior := heir], p, i, around);
        BeforeFirstVisit(next, prior, heir, around);
      }
    } else {
      assert Walk(next, p);
    }
  }

  /** The commit-time guard is exactly what acyclicity needs: the new link closes a
      cycle if and only if `prior` is already reachable from `heir`. */
  lemma {:induction false} LinkKeepsAcyclic(next: map<MemoryId, MemoryId>, prior: MemoryId, heir: MemoryId)
    requires Acyclic(next)
    ensures Acyclic(next[prior := heir]) <==> prior !in Successors(next, heir)
  {
    var linked := next[prior := heir];
    SuccessorsAreReachable(next, heir, prior);
    if prior !in Successors(next, heir) {
      forall p | Walk(linked, p) && |p| >= 2 ensures p[0] != p[|p| - 1] {
        NoNewCycle(next, prior, heir, p);
      }
    } else {
      var p :| WalkFromTo(next, p, heir, prior);
      RelinkedWalk(next, prior, heir, p);
      var q :| WalkFromTo(linked, q, heir, prior);
      var cycle := [prior] + q;
      assert Walk(linked, cycle);
      assert cycle[0] == cycle[|cycle| - 1];
    }
  }

  lemma {:induction false} RelinkedWalk(next: map<MemoryId, MemoryId>, prior: MemoryId, heir: MemoryId, p: seq<MemoryId>)
    requires Walk(next, p) && p[|p| - 1] == prior
    ensures Reaches(next[prior := heir], p[0], prior)
    decreases |p|
  {
    var linked := next[prior := heir];
    if p[0] == prior {
      assert WalkFromTo(linked, [prior], prior, prior);
    } else {
      RelinkedWalk(next, prior, heir, p[1..]);
      var q :| WalkFromTo(linked, q, p[1], prior);
      assert WalkFromTo(linked, [p[0]] + q, p[0], prior);
    }
  }

  /** Removing links keeps a table acyclic. */
  lemma {:induction false} UnlinkKeepsAcyclic(next: map<MemoryId, MemoryId>, fewer: map<MemoryId, MemoryId>)
    requires Acyclic(next)
    requires forall m | m in fewer :: m in next && next[m] == fewer[m]
    ensures Acyclic(fewer)
  {
    forall p | Walk(fewer, p) && |p| >= 2 ensures p[0] != p[|p| - 1] {
      assert Walk(next, p);
    }
  }
}
