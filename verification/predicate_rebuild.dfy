/** Which refusal a rebuild reports, and when that depends on the order of its rows. */
module RebuildErrors {

  import opened Wrappers
  import opened PredicateRegistry

  predicate AtMostKey(a: Key, b: Key) {
    if a.ns == b.ns then a.version <= b.version else AtMost(a.ns, b.ns)
  }

  datatype Part = Lower | Here | Higher

  /** Where a document lies from a key: before it, at it or after it. */
  predicate Lies(d: PredicateSet, k: Key, part: Part) {
    match part
    case Lower => KeyOf(d) != k && AtMostKey(KeyOf(d), k)
    case Here => KeyOf(d) == k
    case Higher => !AtMostKey(KeyOf(d), k)
  }

  /** The documents of one part, in the order given. */
  function Pick(docs: seq<PredicateSet>, k: Key, part: Part): seq<PredicateSet>
    decreases |docs|
  {
    if docs == [] then []
    else Pick(docs[..|docs| - 1], k, part) + if Lies(docs[|docs| - 1], k, part) then [docs[|docs| - 1]] else []
  }

  lemma {:induction false} PickMeans(docs: seq<PredicateSet>, k: Key, part: Part)
    ensures forall d :: d in Pick(docs, k, part) <==> d in docs && Lies(d, k, part)
    decreases |docs|
  {
    if docs != [] {
      PickMeans(docs[..|docs| - 1], k, part);
      assert forall d :: d in docs <==> d in docs[..|docs| - 1] || d == docs[|docs| - 1];
    }
  }

  lemma {:induction false} PickSnoc(docs: seq<PredicateSet>, d: PredicateSet, k: Key, part: Part)
    ensures Pick(docs + [d], k, part) == if Lies(d, k, part) then Pick(docs, k, part) + [d] else Pick(docs, k, part)
  {
    assert (docs + [d])[..|docs|] == docs;
    assert Pick(docs, k, part) + [] == Pick(docs, k, part);
  }

  lemma {:induction false} KeysAreOrdered(a: Key, b: Key, c: Key)
    ensures AtMostKey(a, b) || AtMostKey(b, a)
    ensures AtMostKey(a, b) && AtMostKey(b, a) ==> a == b
    ensures AtMostKey(a, b) && AtMostKey(b, c) ==> AtMostKey(a, c)
  {
    TextOrder(a.ns, b.ns, c.ns);
    TextOrder(a.ns, b.ns, a.ns);
    TextOrder(b.ns, c.ns, b.ns);
  }

  lemma {:induction false} PartsFollow(d: PredicateSet, e: PredicateSet, k: Key)
    ensures Lies(d, k, Lower) && (Lies(e, k, Here) || Lies(e, k, Higher)) ==> Before(d, e) && !Before(e, d)
    ensures Lies(d, k, Here) && Lies(e, k, Higher) ==> Before(d, e) && !Before(e, d)
    ensures Lies(d, k, Here) && Lies(e, k, Here) ==> Before(d, e)
  {
    var a, b := KeyOf(d), KeyOf(e);
    KeysAreOrdered(a, b, k);
    KeysAreOrdered(b, a, k);
    KeysAreOrdered(a, k, b);
    KeysAreOrdered(b, k, a);
    KeysAreOrdered(k, b, a);
  }

  lemma {:induction false} InsertAfter(d: PredicateSet, x: seq<PredicateSet>, y: seq<PredicateSet>)
    requires forall e | e in x :: Before(e, d)
    ensures Insert(d, x + y) == x + Insert(d, y)
    decreases |y|
  {
    var all := x + y;
    if y == [] {
      assert all == x;
      assert x != [] ==> x[|x| - 1] in x;
    } else {
      assert all[|all| - 1] == y[|y| - 1] && all[..|all| - 1] == x + y[..|y| - 1];
      InsertAfter(d, x, y[..|y| - 1]);
    }
  }

  lemma {:induction false} InsertBefore(d: PredicateSet, x: seq<PredicateSet>, y: seq<PredicateSet>)
    requires forall e | e in y :: !Before(e, d)
    ensures Insert(d, x + y) == Insert(d, x) + y
    decreases |y|
  {
    var all := x + y;
    if y == [] {
      assert all == x;
    } else {
      assert y[|y| - 1] in y;
      assert all[|all| - 1] == y[|y| - 1] && all[..|all| - 1] == x + y[..|y| - 1];
      InsertBefore(d, x, y[..|y| - 1]);
      assert y == y[..|y| - 1] + [y[|y| - 1]];
    }
  }

  function Split(docs: seq<PredicateSet>, k: Key): seq<PredicateSet> {
    Sort(Pick(docs, k, Lower)) + Pick(docs, k, Here) + Sort(Pick(docs, k, Higher))
  }

  /** Sorting puts what is before a key first, then what is at it in the order given,
      then what is after it. */
  lemma {:induction false} SortSplits(docs: seq<PredicateSet>, k: Key)
    ensures Sort(docs) == Split(docs, k)
    decreases |docs|
  {
    if docs != [] {
      var before, d := docs[..|docs| - 1], docs[|docs| - 1];
      SortSplits(before, k);
      SplitTakes(before, d, k);
      SortSnoc(before, d);
      assert before + [d] == docs;
    }
  }

  /** The three parts of what lies around a document of the first part, and so on. */
  ghost predicate Around(low: seq<PredicateSet>, at: seq<PredicateSet>, high: seq<PredicateSet>, k: Key) {
    && (forall e | e in low :: Lies(e, k, Lower))
    && (forall e | e in at :: Lies(e, k, Here))
    && (forall e | e in high :: Lies(e, k, Higher))
  }

  lemma {:induction false} TakeLower(low: seq<PredicateSet>, at: seq<PredicateSet>, high: seq<PredicateSet>, d: PredicateSet, k: Key)
    requires Around(low, at, high, k) && Lies(d, k, Lower)
    ensures Insert(d, low + at + high) == Insert(d, low) + at + high
  {
    forall e | e in at + high ensures !Before(e, d) {
      PartsFollow(d, e, k);
    }
    assert low + at + high == low + (at + high);
    InsertBefore(d, low, at + high);
    assert Insert(d, low) + at + high == Insert(d, low) + (at + high);
  }

  lemma {:induction false} TakeHere(low: seq<PredicateSet>, at: seq<PredicateSet>, high: seq<PredicateSet>, d: PredicateSet, k: Key)
    requires Around(low, at, high, k) && Lies(d, k, Here)
    ensures Insert(d, low + at + high) == low + (at + [d]) + high
  {
    forall e | e in high ensures !Before(e, d) {
      PartsFollow(d, e, k);
    }
    forall e | e in low + at ensures Before(e, d) {
      PartsFollow(e, d, k);
    }
    InsertBefore(d, low + at, high);
    InsertAfter(d, low + at, []);
    assert low + at + [] == low + at;
    assert low + at + [d] == low + (at + [d]);
  }

  lemma {:induction false} TakeHigher(low: seq<PredicateSet>, at: seq<PredicateSet>, high: seq<PredicateSet>, d: PredicateSet, k: Key)
    requires Around(low, at, high, k) && Lies(d, k, Higher)
    ensures Insert(d, low + at + high) == low + at + Insert(d, high)
  {
    forall e | e in low + at ensures Before(e, d) {
      PartsFollow(e, d, k);
    }
    InsertAfter(d, low + at, high);
  }

  lemma {:induction false} PartsAround(docs: seq<PredicateSet>, k: Key)
    ensures Around(Sort(Pick(docs, k, Lower)), Pick(docs, k, Here), Sort(Pick(docs, k, Higher)), k)
  {
    PickMeans(docs, k, Lower);
    PickMeans(docs, k, Here);
    PickMeans(docs, k, Higher);
  }

  lemma {:induction false} TakeLowerOf(docs: seq<PredicateSet>, d: PredicateSet, k: Key)
    requires Lies(d, k, Lower)
    ensures Insert(d, Split(docs, k)) == Insert(d, Sort(Pick(docs, k, Lower))) + Pick(docs, k, Here) + Sort(Pick(docs, k, Higher))
  {
    PartsAround(docs, k);
    TakeLower(Sort(Pick(docs, k, Lower)), Pick(docs, k, Here), Sort(Pick(docs, k, Higher)), d, k);
  }

  lemma {:induction false} SplitLower(docs: seq<PredicateSet>, d: PredicateSet, k: Key)
    requires Lies(d, k, Lower) && !Lies(d, k, Here) && !Lies(d, k, Higher)
    ensures Insert(d, Split(docs, k)) == Split(docs + [d], k)
  {
    TakeLowerOf(docs, d, k);
    PickSnoc(docs, d, k, Lower);
    PickSnoc(docs, d, k, Here);
    PickSnoc(docs, d, k, Higher);
    SortSnoc(Pick(docs, k, Lower), d);
  }

  lemma {:induction false} TakeHereOf(docs: seq<PredicateSet>, d: PredicateSet, k: Key)
    requires Lies(d, k, Here)
    ensures Insert(d, Split(docs, k)) == Sort(Pick(docs, k, Lower)) + (Pick(docs, k, Here) + [d]) + Sort(Pick(docs, k, Higher))
  {
    PartsAround(docs, k);
    TakeHere(Sort(Pick(docs, k, Lower)), Pick(docs, k, Here), Sort(Pick(docs, k, Higher)), d, k);
  }

  lemma {:induction false} SplitHere(docs: seq<PredicateSet>, d: PredicateSet, k: Key)
    requires Lies(d, k, Here) && !Lies(d, k, Lower) && !Lies(d, k, Higher)
    ensures Insert(d, Split(docs, k)) == Split(docs + [d], k)
  {
    TakeHereOf(docs, d, k);
    PickSnoc(docs, d, k, Lower);
    PickSnoc(docs, d, k, Here);
    PickSnoc(docs, d, k, Higher);
  }

  lemma {:induction false} TakeHigherOf(docs: seq<PredicateSet>, d: PredicateSet, k: Key)
    requires Lies(d, k, Higher)
    ensures Insert(d, Split(docs, k)) == Sort(Pick(docs, k, Lower)) + Pick(docs, k, Here) + Insert(d, Sort(Pick(docs, k, Higher)))
  {
    PartsAround(docs, k);
    TakeHigher(Sort(Pick(docs, k, Lower)), Pick(docs, k, Here), Sort(Pick(docs, k, Higher)), d, k);
  }

  lemma {:induction false} SplitHigher(docs: seq<PredicateSet>, d: PredicateSet, k: Key)
    requires Lies(d, k, Higher) && !Lies(d, k, Lower) && !Lies(d, k, Here)
    ensures Insert(d, Split(docs, k)) == Split(docs + [d], k)
  {
    TakeHigherOf(docs, d, k);
    PickSnoc(docs, d, k, Lower);
    PickSnoc(docs, d, k, Here);
    PickSnoc(docs, d, k, Higher);
    SortSnoc(Pick(docs, k, Higher), d);
  }

  lemma {:induction false} SplitTakes(before: seq<PredicateSet>, d: PredicateSet, k: Key)
    ensures Insert(d, Split(before, k)) == Split(before + [d], k)
  {
    KeysAreOrdered(KeyOf(d), k, k);
    if Lies(d, k, Lower) {
      SplitLower(before, d, k);
    } else if Lies(d, k, Here) {
      SplitHere(before, d, k);
    } else {
      SplitHigher(before, d, k);
    }
  }

  lemma {:induction false} SortSnoc(docs: seq<PredicateSet>, d: PredicateSet)
    ensures Sort(docs + [d]) == Insert(d, Sort(docs))
  {
    assert (docs + [d])[..|docs|] == docs;
  }

  // ------------------------------------------------------- the first bad key

  /** A document's refusal, were it the first of its key to be offered: its own, or the
      conflict with the next one. */
  function Refusal(below: Snapshot, d: PredicateSet): RegistryError {
    match Check(below, d)
    case Err(e) => e
    case Ok(_) => ConflictingVersion(d.version)
  }

  /** More documents of a key that is taken: the same one changes nothing. */
  lemma {:induction false} TakenSame(p: seq<PredicateSet>, sets: Snapshot, d: PredicateSet, more: seq<PredicateSet>)
    requires Replay(p) == Ok(sets) && KeyOf(d) in sets && sets[KeyOf(d)] == d && d.ns != RESERVED
    requires forall e | e in more :: e == d
    ensures Replay(p + more) == Ok(sets)
    decreases |more|
  {
    if more == [] {
      assert p + more == p;
    } else {
      var less := more[..|more| - 1];
      assert more[|more| - 1] in more && forall e | e in less :: e in more;
      TakenSame(p, sets, d, less);
      ReplaySnoc(p + less, d);
      assert p + more == p + less + [d];
    }
  }

  lemma {:induction false} ReplaySnoc(docs: seq<PredicateSet>, d: PredicateSet)
    requires Replay(docs).Ok?
    ensures Replay(docs + [d]) == match Check(Replay(docs).value, d) case Err(e) => Err(e) case Ok(_) => Ok(Admitted(Replay(docs).value, d))
  {
    assert (docs + [d])[..|docs|] == docs;
  }

  /** And the first different one is a conflict. */
  lemma {:induction false} TakenOther(p: seq<PredicateSet>, sets: Snapshot, d: PredicateSet, more: seq<PredicateSet>, e: PredicateSet)
    requires Replay(p) == Ok(sets) && KeyOf(d) in sets && sets[KeyOf(d)] == d && d.ns != RESERVED
    requires (forall x | x in more :: KeyOf(x) == KeyOf(d)) && e in more && e != d
    ensures Replay(p + more) == Err(ConflictingVersion(d.version))
    decreases |more|
  {
    var less, last := more[..|more| - 1], more[|more| - 1];
    assert more == less + [last] && last in more;
    assert p + more == p + less + [last];
    if x :| x in less && x != d {
      assert forall y | y in less :: y in more;
      TakenOther(p, sets, d, less, x);
      assert (p + less + [last])[..|p + less|] == p + less;
      ReplayStops(p + less + [last], |p + less|);
    } else {
      TakenSame(p, sets, d, less);
      ReplaySnoc(p + less, last);
    }
  }

  lemma {:induction false} BelowIsFree(docs: seq<PredicateSet>, k: Key)
    requires Coherent(Pick(docs, k, Lower))
    ensures Replay(Sort(Pick(docs, k, Lower))).Ok? && k !in Replay(Sort(Pick(docs, k, Lower))).value
  {
    PickMeans(docs, k, Lower);
    RebuildsIff(Pick(docs, k, Lower));
  }

  /** What lies below a key, when that much can be rebuilt. */
  function Below(docs: seq<PredicateSet>, k: Key): Snapshot
    requires Coherent(Pick(docs, k, Lower))
  {
    BelowIsFree(docs, k);
    Replay(Sort(Pick(docs, k, Lower))).value
  }

  lemma {:induction false} GroupOn(low: seq<PredicateSet>, sets: Snapshot, at: seq<PredicateSet>, k: Key)
    requires Replay(low) == Ok(sets) && k !in sets && at != [] && forall e | e in at :: KeyOf(e) == k
    ensures if (exists e :: e in at && e != at[0]) || Check(sets, at[0]).Err?
            then Replay(low + at) == Err(Refusal(sets, at[0])) else Replay(low + at).Ok?
  {
    var d, more := at[0], at[1..];
    assert d in at;
    ReplaySnoc(low, d);
    assert low + at == low + [d] + more;
    forall e | e in more ensures e in at {
    }
    if Check(sets, d).Err? {
      assert (low + [d] + more)[..|low + [d]|] == low + [d];
      ReplayStops(low + [d] + more, |low + [d]|);
    } else {
      assert forall e | e in at :: e == d || e in more;
      if e :| e in at && e != d {
        TakenOther(low + [d], sets[k := d], d, more, e);
      } else {
        TakenSame(low + [d], sets[k := d], d, more);
      }
    }
  }

  lemma {:induction false} GroupReplays(docs: seq<PredicateSet>, k: Key, at: seq<PredicateSet>)
    requires Coherent(Pick(docs, k, Lower)) && at == Pick(docs, k, Here) && at != []
    ensures var p := Sort(Pick(docs, k, Lower)) + at;
            if (exists e :: e in at && e != at[0]) || Check(Below(docs, k), at[0]).Err?
            then Replay(p) == Err(Refusal(Below(docs, k), at[0])) else Replay(p).Ok?
  {
    BelowIsFree(docs, k);
    PickMeans(docs, k, Here);
    GroupOn(Sort(Pick(docs, k, Lower)), Below(docs, k), at, k);
  }

  /** The refusal of a rebuild is that of the first document at the first bad key. */
  lemma {:induction false} RefusedWith(docs: seq<PredicateSet>, k: Key, at: seq<PredicateSet>)
    requires Coherent(Pick(docs, k, Lower)) && at == Pick(docs, k, Here) && at != []
    requires (exists e :: e in at && e != at[0]) || Check(Below(docs, k), at[0]).Err?
    ensures Replay(Sort(docs)) == Err(Refusal(Below(docs, k), at[0]))
  {
    SortSplits(docs, k);
    GroupReplays(docs, k, at);
    var p := Sort(Pick(docs, k, Lower)) + at;
    assert Split(docs, k)[..|p|] == p;
    ReplayStops(Split(docs, k), |p|);
  }

  /** Everything up to a key, the key included. */
  function UpTo(docs: seq<PredicateSet>, k: Key): seq<PredicateSet> {
    Pick(docs, k, Lower) + Pick(docs, k, Here)
  }

  /** The first key the documents cannot be rebuilt past. */
  ghost predicate StuckAt(docs: seq<PredicateSet>, k: Key) {
    Coherent(Pick(docs, k, Lower)) && !Coherent(UpTo(docs, k))
  }

  lemma {:induction false} LowerAgain(docs: seq<PredicateSet>, k: Key)
    ensures Pick(UpTo(docs, k), k, Lower) == Pick(docs, k, Lower)
    ensures Pick(UpTo(docs, k), k, Here) == Pick(docs, k, Here)
    ensures Pick(UpTo(docs, k), k, Higher) == []
  {
    PickMeans(docs, k, Lower);
    PickMeans(docs, k, Here);
    PickAll(Pick(docs, k, Lower), k, Lower);
    PickAll(Pick(docs, k, Here), k, Here);
    KeysAreOrdered(k, k, k);
    PickNone(Pick(docs, k, Lower), k, Here);
    PickNone(Pick(docs, k, Lower), k, Higher);
    PickNone(Pick(docs, k, Here), k, Lower);
    PickNone(Pick(docs, k, Here), k, Higher);
    PickAppend(Pick(docs, k, Lower), Pick(docs, k, Here), k, Lower);
    PickAppend(Pick(docs, k, Lower), Pick(docs, k, Here), k, Here);
    PickAppend(Pick(docs, k, Lower), Pick(docs, k, Here), k, Higher);
  }

  lemma {:induction false} PickAll(docs: seq<PredicateSet>, k: Key, part: Part)
    requires forall d | d in docs :: Lies(d, k, part)
    ensures Pick(docs, k, part) == docs
    decreases |docs|
  {
    if docs != [] {
      var less, last := docs[..|docs| - 1], docs[|docs| - 1];
      assert docs == less + [last];
      assert last in docs && forall d | d in less :: d in docs;
      PickAll(less, k, part);
      PickSnoc(less, last, k, part);
    }
  }

  lemma {:induction false} PickNone(docs: seq<PredicateSet>, k: Key, part: Part)
    requires forall d | d in docs :: !Lies(d, k, part)
    ensures Pick(docs, k, part) == []
    decreases |docs|
  {
    if docs != [] {
      assert docs[|docs| - 1] in docs && forall d | d in docs[..|docs| - 1] :: d in docs;
      PickNone(docs[..|docs| - 1], k, part);
    }
  }

  lemma {:induction false} PickAppend(a: seq<PredicateSet>, b: seq<PredicateSet>, k: Key, part: Part)
    ensures Pick(a + b, k, part) == Pick(a, k, part) + Pick(b, k, part)
    decreases |b|
  {
    if b == [] {
      assert a + b == a;
    } else {
      var less, last := b[..|b| - 1], b[|b| - 1];
      assert a + b == a + less + [last] && b == less + [last];
      PickAppend(a, less, k, part);
      PickSnoc(a + less, last, k, part);
      PickSnoc(less, last, k, part);
    }
  }

  /** At the first bad key there is a document, and either the first one is refused or
      another differs from it. */
  lemma {:induction false} StuckMeans(docs: seq<PredicateSet>, k: Key)
    requires StuckAt(docs, k)
    ensures var at := Pick(docs, k, Here);
            at != [] && ((exists e :: e in at && e != at[0]) || Check(Below(docs, k), at[0]).Err?)
  {
    var low, at := Pick(docs, k, Lower), Pick(docs, k, Here);
    assert at == [] ==> UpTo(docs, k) == low;
    if at != [] {
      var some := UpTo(docs, k);
      LowerAgain(docs, k);
      SortSplits(some, k);
      RebuildsIff(some);
      assert Split(some, k) == Sort(low) + at;
      GroupReplays(docs, k, at);
    }
  }

  /** What cannot be rebuilt is stuck at some key. */
  lemma {:induction false} SomewhereStuck(docs: seq<PredicateSet>) returns (k: Key)
    requires !Coherent(docs)
    ensures StuckAt(docs, k)
  {
    var ordered := Sort(docs);
    SortSorts(docs);
    SameCoherence(docs, ordered);
    var n := FirstIncoherent(ordered);
    k := KeyOf(ordered[n]);
    PickMeans(docs, k, Lower);
    PickMeans(docs, k, Here);
    forall d | d in Pick(docs, k, Lower) ensures d in ordered[..n] {
      InOrder(ordered, n, d);
    }
    SomeCoherent(ordered[..n], Pick(docs, k, Lower));
    forall d | d in ordered[..n + 1] ensures d in UpTo(docs, k) {
      assert d in ordered && d in docs;
      SortedBefore(ordered, n, d);
    }
    if Coherent(UpTo(docs, k)) {
      SomeCoherent(UpTo(docs, k), ordered[..n + 1]);
    }
  }

  lemma {:induction false} SomeCoherent(docs: seq<PredicateSet>, some: seq<PredicateSet>)
    requires Coherent(docs) && forall d | d in some :: d in docs
    ensures Coherent(some)
  {
  }

  lemma {:induction false} SameCoherence(docs: seq<PredicateSet>, others: seq<PredicateSet>)
    requires forall d :: d in docs <==> d in others
    ensures Coherent(docs) <==> Coherent(others)
  {
  }

  lemma {:induction false} FirstIncoherent(docs: seq<PredicateSet>) returns (n: nat)
    requires !Coherent(docs)
    ensures n < |docs| && Coherent(docs[..n]) && !Coherent(docs[..n + 1])
  {
    n := 0;
    assert docs[..|docs|] == docs;
    while Coherent(docs[..n + 1])
      invariant n < |docs| && Coherent(docs[..n])
      decreases |docs| - n
    {
      n := n + 1;
    }
  }

  lemma {:induction false} SortedBefore(s: seq<PredicateSet>, n: nat, d: PredicateSet)
    requires Sorted(s) && n < |s| && d in s[..n + 1]
    ensures Before(d, s[n])
    decreases |s|
  {
    if n == |s| - 1 {
      assert s[..n + 1] == s;
    } else {
      assert s[..|s| - 1][..n + 1] == s[..n + 1];
      SortedBefore(s[..|s| - 1], n, d);
    }
  }

  lemma {:induction false} InOrder(s: seq<PredicateSet>, n: nat, d: PredicateSet)
    requires Sorted(s) && n < |s| && d in s && Lies(d, KeyOf(s[n]), Lower)
    ensures d in s[..n]
  {
    var i :| 0 <= i < |s| && s[i] == d;
    if i >= n {
      assert s[n] in s[..i + 1];
      SortedBefore(s, i, s[n]);
      KeysAreOrdered(KeyOf(d), KeyOf(s[n]), KeyOf(d));
    }
    assert i < n;
    assert s[..n][i] == d;
  }

  // ------------------------------------------------------------ permutations

  lemma {:induction false} SameMembers(a: seq<PredicateSet>, b: seq<PredicateSet>)
    requires multiset(a) == multiset(b)
    ensures forall d :: d in a <==> d in b
  {
    forall d ensures d in a <==> d in b {
      assert d in multiset(a) <==> d in a;
      assert d in multiset(b) <==> d in b;
    }
  }

  lemma {:induction false} SameBelow(a: seq<PredicateSet>, b: seq<PredicateSet>, k: Key)
    requires multiset(a) == multiset(b) && Coherent(Pick(a, k, Lower))
    ensures Coherent(Pick(b, k, Lower)) && Below(a, k) == Below(b, k)
    ensures StuckAt(a, k) ==> StuckAt(b, k)
  {
    SameMembers(a, b);
    PickMeans(a, k, Lower);
    PickMeans(b, k, Lower);
    PickMeans(a, k, Here);
    PickMeans(b, k, Here);
    SameCoherence(Pick(a, k, Lower), Pick(b, k, Lower));
    OrderIsIrrelevant(Pick(a, k, Lower), Pick(b, k, Lower));
    BelowIsFree(a, k);
    SameCoherence(UpTo(a, k), UpTo(b, k));
  }

  /** A list with one of its members moved to the front. */
  function Fronted(docs: seq<PredicateSet>, i: nat): seq<PredicateSet>
    requires i < |docs|
  {
    [docs[i]] + (docs[..i] + docs[i + 1..])
  }

  lemma {:induction false} FrontedFirst(docs: seq<PredicateSet>, i: nat, k: Key)
    requires i < |docs| && KeyOf(docs[i]) == k
    ensures multiset(Fronted(docs, i)) == multiset(docs)
    ensures Pick(Fronted(docs, i), k, Here) != [] && Pick(Fronted(docs, i), k, Here)[0] == docs[i]
  {
    assert docs == docs[..i] + [docs[i]] + docs[i + 1..];
    PickAppend([docs[i]], docs[..i] + docs[i + 1..], k, Here);
    PickAll([docs[i]], k, Here);
  }

  lemma {:induction false} FrontedRefusal(docs: seq<PredicateSet>, i: nat, k: Key, e: PredicateSet)
    requires StuckAt(docs, k) && i < |docs| && KeyOf(docs[i]) == k && e in docs && KeyOf(e) == k && e != docs[i]
    ensures multiset(Fronted(docs, i)) == multiset(docs)
    ensures Replay(Sort(Fronted(docs, i))) == Err(Refusal(Below(docs, k), docs[i]))
  {
    var front := Fronted(docs, i);
    FrontedFirst(docs, i, k);
    SameMembers(front, docs);
    SameBelow(docs, front, k);
    PickMeans(front, k, Here);
    assert e in Pick(front, k, Here);
    RefusedWith(front, k, Pick(front, k, Here));
  }

  ghost predicate ReportsAlike(docs: seq<PredicateSet>, others: seq<PredicateSet>) {
    multiset(others) == multiset(docs) ==> Replay(Sort(others)) == Replay(Sort(docs))
  }

  /** The documents at the first bad key would all be refused alike, each offered first. */
  ghost predicate RefusedAlike(docs: seq<PredicateSet>, k: Key)
    requires Coherent(Pick(docs, k, Lower))
  {
    forall d, e | d in docs && e in docs && KeyOf(d) == k && KeyOf(e) == k :: Refusal(Below(docs, k), d) == Refusal(Below(docs, k), e)
  }

  lemma {:induction false} AlikeReports(docs: seq<PredicateSet>, others: seq<PredicateSet>)
    requires forall k: Key :: StuckAt(docs, k) ==> RefusedAlike(docs, k)
    ensures ReportsAlike(docs, others)
  {
    if multiset(others) == multiset(docs) {
      SameMembers(docs, others);
      OrderIsIrrelevant(docs, others);
      RebuildsIff(docs);
      if !Coherent(docs) {
        var k := SomewhereStuck(docs);
        SameBelow(docs, others, k);
        StuckMeans(docs, k);
        StuckMeans(others, k);
        PickMeans(docs, k, Here);
        PickMeans(others, k, Here);
        RefusedWith(docs, k, Pick(docs, k, Here));
        RefusedWith(others, k, Pick(others, k, Here));
        assert Pick(docs, k, Here)[0] in Pick(docs, k, Here) && Pick(others, k, Here)[0] in Pick(others, k, Here);
      }
    }
  }

  lemma {:induction false} ReportsAlikeRefuse(docs: seq<PredicateSet>, k: Key)
    requires StuckAt(docs, k) && forall others :: ReportsAlike(docs, others)
    ensures RefusedAlike(docs, k)
  {
    forall d, e | d in docs && e in docs && KeyOf(d) == k && KeyOf(e) == k
      ensures Refusal(Below(docs, k), d) == Refusal(Below(docs, k), e)
    {
      if d != e {
        var i: nat :| i < |docs| && docs[i] == d;
        var j: nat :| j < |docs| && docs[j] == e;
        FrontedRefusal(docs, i, k, e);
        FrontedRefusal(docs, j, k, d);
        assert ReportsAlike(docs, Fronted(docs, i)) && ReportsAlike(docs, Fronted(docs, j));
      }
    }
  }

  /** The report is the same in every order if and only if the documents at the first key
      that cannot be rebuilt past would be refused alike, each offered first: that is, all
      acceptable (and then in conflict), or all refused for one reason. */
  lemma {:induction false} ReportIndependentIff(docs: seq<PredicateSet>)
    ensures (forall others :: ReportsAlike(docs, others)) <==> (forall k: Key :: StuckAt(docs, k) ==> RefusedAlike(docs, k))
  {
    if forall others :: ReportsAlike(docs, others) {
      forall k: Key | StuckAt(docs, k) ensures RefusedAlike(docs, k) {
        ReportsAlikeRefuse(docs, k);
      }
    }
    if forall k: Key :: StuckAt(docs, k) ==> RefusedAlike(docs, k) {
      forall others ensures ReportsAlike(docs, others) {
        AlikeReports(docs, others);
      }
    }
  }

  /** In particular, where no two different documents claim one version the report never
      depends on the order. */
  lemma {:induction false} OneEachReportsAlike(docs: seq<PredicateSet>, others: seq<PredicateSet>)
    requires forall d, e | d in docs && e in docs && KeyOf(d) == KeyOf(e) :: d == e
    requires multiset(others) == multiset(docs)
    ensures Replay(Sort(others)) == Replay(Sort(docs))
  {
    AlikeReports(docs, others);
  }
}
