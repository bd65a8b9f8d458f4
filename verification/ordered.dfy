/** Finite sets of numbers in order. */
module Ordered {

  predicate IsHighest(s: set<nat>, m: nat) {
    m in s && forall x | x in s :: x <= m
  }

  predicate IsLowest(s: set<nat>, m: nat) {
    m in s && forall x | x in s :: m <= x
  }

  lemma {:induction false} HasHighest(s: set<nat>)
    requires s != {}
    ensures exists m: nat :: IsHighest(s, m)
    decreases |s|
  {
    var x :| x in s;
    var rest := s - {x};
    assert forall y | y in s :: y == x || y in rest;
    if rest == {} {
      assert IsHighest(s, x);
    } else {
      HasHighest(rest);
      var m: nat :| IsHighest(rest, m);
      assert IsHighest(s, if m < x then x else m);
    }
  }

  function Highest(s: set<nat>): (m: nat)
    requires s != {}
    ensures m in s && forall x | x in s :: x <= m
  {
    HasHighest(s);
    var m :| m in s && IsHighest(s, m);
    m
  }

  lemma {:induction false} HasLowest(s: set<nat>)
    requires s != {}
    ensures exists m: nat :: IsLowest(s, m)
    decreases |s|
  {
    var x :| x in s;
    var rest := s - {x};
    assert forall y | y in s :: y == x || y in rest;
    if rest == {} {
      assert IsLowest(s, x);
    } else {
      HasLowest(rest);
      var m: nat :| IsLowest(rest, m);
      assert IsLowest(s, if x < m then x else m);
    }
  }

  function Lowest(s: set<nat>): (m: nat)
    requires s != {}
    ensures m in s && forall x | x in s :: m <= x
  {
    HasLowest(s);
    var m :| m in s && IsLowest(s, m);
    m
  }

  /** `ORDER BY id LIMIT limit`. */
  function FirstById(s: set<nat>, limit: nat): seq<nat>
    decreases limit
  {
    if s == {} || limit == 0 then [] else [Lowest(s)] + FirstById(s - {Lowest(s)}, limit - 1)
  }

  lemma {:induction false} FirstByIdPicks(s: set<nat>, limit: nat)
    ensures forall x | x in FirstById(s, limit) :: x in s
    ensures forall i, j | 0 <= i < j < |FirstById(s, limit)| :: FirstById(s, limit)[i] < FirstById(s, limit)[j]
    ensures |FirstById(s, limit)| == if |s| < limit then |s| else limit
    ensures forall x, y | x in FirstById(s, limit) && y in s && y !in FirstById(s, limit) :: x < y
    decreases limit
  {
    if s != {} && limit != 0 {
      var low := Lowest(s);
      FirstByIdPicks(s - {low}, limit - 1);
      assert |s - {low}| == |s| - 1;
      var rest := FirstById(s - {low}, limit - 1);
      forall i, j | 0 <= i < j < |FirstById(s, limit)| ensures FirstById(s, limit)[i] < FirstById(s, limit)[j] {
        assert FirstById(s, limit)[j] == rest[j - 1] && rest[j - 1] in rest;
      }
    }
  }

  lemma {:induction false} TakesAll(s: set<nat>, ids: seq<nat>)
    requires |ids| == |s| && (forall x | x in ids :: x in s) && (forall i, j | 0 <= i < j < |ids| :: ids[i] < ids[j])
    ensures forall x | x in s :: x in ids
    decreases |s|
  {
    if ids != [] {
      var last := ids[|ids| - 1];
      var rest := ids[..|ids| - 1];
      assert last in ids;
      assert forall x | x in rest :: x in ids && x != last;
      assert |s - {last}| == |s| - 1;
      TakesAll(s - {last}, rest);
      forall x | x in s ensures x in ids {
        if x != last { assert x in rest; }
      }
    }
  }

  ghost predicate Increasing(s: seq<nat>) {
    forall i, j | 0 <= i < j < |s| :: s[i] < s[j]
  }

  function Elements(s: seq<nat>): set<nat> {
    set x | x in s
  }

  /** The members of a set, in order. */
  function Ascending(s: set<nat>): seq<nat> {
    FirstById(s, |s|)
  }

  lemma {:induction false} AscendingLists(s: set<nat>)
    ensures Increasing(Ascending(s)) && Elements(Ascending(s)) == s
  {
    FirstByIdPicks(s, |s|);
    TakesAll(s, Ascending(s));
  }

  /** There is only one way to list a set in order. */
  lemma {:induction false} IncreasingIsAscending(s: seq<nat>)
    requires Increasing(s)
    ensures s == Ascending(Elements(s))
  {
    AscendingLists(Elements(s));
    SameListing(s, Ascending(Elements(s)));
  }

  lemma {:induction false} SameListing(a: seq<nat>, b: seq<nat>)
    requires Increasing(a) && Increasing(b) && Elements(a) == Elements(b)
    ensures a == b
    decreases |a|
  {
    assert |a| > 0 ==> a[0] in Elements(a) && a[0] in b;
    assert |b| > 0 ==> b[0] in Elements(b) && b[0] in a;
    if |a| > 0 {
      assert a[0] == b[0];
      forall x ensures x in Elements(a[1..]) <==> x in Elements(b[1..]) {
        Tail(a, x);
        Tail(b, x);
      }
      SameListing(a[1..], b[1..]);
      assert a == [a[0]] + a[1..] && b == [b[0]] + b[1..];
    }
  }

  lemma {:induction false} Tail(a: seq<nat>, x: nat)
    requires Increasing(a) && a != []
    ensures x in Elements(a[1..]) <==> x in Elements(a) && x != a[0]
  {
    if x in a && x != a[0] {
      var i :| 0 <= i < |a| && a[i] == x;
      assert a[1..][i - 1] == x;
    }
  }
}
