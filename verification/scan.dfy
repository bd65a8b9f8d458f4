/** The exact vector scan: pages of rows through a bounded heap, against scoring
    everything, sorting it and taking the first k.

    Scores are compared by a total order, so they are integers here: the place of a
    score in that order. Chunk ids and memory ids are numbered in text order. */
module Scan {

  import opened Wrappers

  /** `memory` is the text of a memory id, and `readable` says whether it is one. */
  datatype Entry = Entry(score: int, chunk: nat, memory: nat, ordinal: int, readable: bool)

  /** Higher score first, then the smaller chunk id. */
  predicate Better(a: Entry, b: Entry) {
    a.score > b.score || (a.score == b.score && a.chunk < b.chunk)
  }

  /** Chunk ids tell entries apart. */
  ghost predicate DistinctChunks(s: set<Entry>) {
    forall a, b | a in s && b in s && a.chunk == b.chunk :: a == b
  }

  ghost predicate Tops(s: set<Entry>, e: Entry) {
    e in s && forall x | x in s && x != e :: Better(e, x)
  }

  lemma {:induction false} HasBest(s: set<Entry>)
    requires s != {} && DistinctChunks(s)
    ensures exists e :: Tops(s, e)
    decreases |s|
  {
    var x :| x in s;
    var rest := s - {x};
    assert forall y | y in s :: y == x || y in rest;
    if rest == {} {
      assert Tops(s, x);
    } else {
      HasBest(rest);
      var m :| Tops(rest, m);
      assert Tops(s, if Better(x, m) then x else m);
    }
  }

  ghost function BestOf(s: set<Entry>): (e: Entry)
    requires s != {} && DistinctChunks(s)
    ensures e in s && forall x | x in s && x != e :: Better(e, x)
  {
    HasBest(s);
    var e :| e in s && forall x | x in s && x != e :: Better(e, x);
    e
  }

  /** Everything, best first. */
  ghost function Sorted(s: set<Entry>): (ranked: seq<Entry>)
    requires DistinctChunks(s)
    ensures |ranked| == |s|
    decreases |s|
  {
    if s == {} then [] else [BestOf(s)] + Sorted(s - {BestOf(s)})
  }

  ghost function First(ranked: seq<Entry>, k: nat): seq<Entry> {
    if |ranked| <= k then ranked else ranked[..k]
  }

  lemma {:induction false} SortedRanks(s: set<Entry>)
    requires DistinctChunks(s)
    ensures forall e :: e in Sorted(s) <==> e in s
    ensures forall i, j | 0 <= i < j < |Sorted(s)| :: Better(Sorted(s)[i], Sorted(s)[j])
    decreases |s|
  {
    if s != {} {
      var rest := s - {BestOf(s)};
      SortedRanks(rest);
      forall i, j | 0 <= i < j < |Sorted(s)| ensures Better(Sorted(s)[i], Sorted(s)[j]) {
        assert Sorted(s)[j] == Sorted(rest)[j - 1] && Sorted(rest)[j - 1] in Sorted(rest);
      }
    }
  }

  // -------------------------------------------------------- the bounded heap

  /** `kept` are the best `k` of `offered`: as many as there can be, and none of the
      others better than any of them. */
  ghost predicate BestK(kept: set<Entry>, offered: set<Entry>, k: nat) {
    && kept <= offered && |kept| == (if |offered| < k then |offered| else k)
    && forall a, b | a in kept && b in offered - kept :: Better(a, b)
  }

  lemma {:induction false} BestIsKept(kept: set<Entry>, offered: set<Entry>, k: nat)
    requires DistinctChunks(offered) && BestK(kept, offered, k) && kept != {}
    ensures DistinctChunks(kept) && offered != {} && BestOf(kept) == BestOf(offered)
  {
    var a :| a in kept;
    assert a in offered;
    var best := BestOf(offered);
    assert best !in kept ==> Better(a, best);
    assert a != best ==> Better(best, a);
    IsBest(kept, best);
  }

  lemma {:induction false} WithoutBest(kept: set<Entry>, offered: set<Entry>, k: nat, best: Entry)
    requires BestK(kept, offered, k) && best in kept
    ensures k > 0 && BestK(kept - {best}, offered - {best}, k - 1)
  {
    assert best in offered;
    assert |kept - {best}| == |kept| - 1 && |offered - {best}| == |offered| - 1;
    assert (offered - {best}) - (kept - {best}) == offered - kept;
  }

  lemma {:induction false} BestKIsPrefix(kept: set<Entry>, offered: set<Entry>, k: nat)
    requires DistinctChunks(offered) && BestK(kept, offered, k)
    ensures DistinctChunks(kept) && Sorted(kept) == First(Sorted(offered), k)
    decreases |offered|
  {
    if kept == {} {
      assert |kept| == 0;
      assert |offered| == 0 || k == 0;
    } else {
      BestIsKept(kept, offered, k);
      var best := BestOf(offered);
      WithoutBest(kept, offered, k, best);
      BestKIsPrefix(kept - {best}, offered - {best}, k - 1);
      assert First(Sorted(offered), k) == [best] + First(Sorted(offered - {best}), k - 1);
    }
  }

  function Elements(s: seq<Entry>): set<Entry> {
    set e | e in s
  }

  /** A heap whose root is the worst entry it retains. */
  class TopK {
    const k: nat
    var heap: seq<Entry>
    ghost var offered: set<Entry>

    ghost predicate Valid()
      reads this
    {
      && DistinctChunks(offered) && BestK(Elements(heap), offered, k)
      && |heap| == |Elements(heap)|
    }

    constructor (k: nat)
      ensures Valid() && this.k == k && heap == [] && offered == {}
    {
      this.k, heap, offered := k, [], {};
      new;
      assert Elements(heap) == {};
    }

    method Admits(score: int, chunk: nat) returns (admitted: bool)
      requires Valid()
      ensures admitted <==> k > 0 && (|heap| < k || exists e :: e in heap && Better(Entry(score, chunk, 0, 0, true), e))
    {
      if k == 0 {
        return false;
      }
      if |heap| < k {
        return true;
      }
      var at := WorstOf(heap);
      admitted := Better(Entry(score, chunk, 0, 0, true), heap[at]);
      if e :| e in heap && Better(Entry(score, chunk, 0, 0, true), e) {
        assert e == heap[at] || Better(e, heap[at]);
      }
    }

    /** Offer one entry; it stays only if it ranks among the best `k` offered so far. */
    method Offer(e: Entry)
      requires Valid() && DistinctChunks(offered + {e}) && e !in offered
      modifies this
      ensures Valid() && offered == old(offered) + {e}
    {
      var admitted := Admits(e.score, e.chunk);
      if !admitted {
        RefusedStays(Elements(heap), offered, e, k);
        offered := offered + {e};
        return;
      }
      var rest := heap;
      if |heap| >= k {
        var at := WorstOf(heap);
        rest := heap[..at] + heap[at + 1..];
        Removed(heap, at);
        ReplacedStays(Elements(heap), offered, e, k, heap[at]);
      } else {
        JoinedStays(Elements(heap), offered, e, k);
      }
      Pushed(rest, e);
      heap, offered := rest + [e], offered + {e};
    }

    /** The retained entries, best first. */
    method IntoSorted() returns (ranked: seq<Entry>)
      requires Valid()
      ensures ranked == First(Sorted(offered), k)
    {
      BestKIsPrefix(Elements(heap), offered, k);
      ranked := SortBest(heap);
    }
  }

  /** The place of the worst entry: what peeking shows and popping takes. */
  method WorstOf(heap: seq<Entry>) returns (at: nat)
    requires heap != [] && DistinctChunks(Elements(heap))
    ensures at < |heap| && forall e | e in heap && e != heap[at] :: Better(e, heap[at])
  {
    at := 0;
    for i := 1 to |heap|
      invariant at < i && forall j | 0 <= j < i && heap[j] != heap[at] :: Better(heap[j], heap[at])
    {
      assert heap[i] in Elements(heap) && heap[at] in Elements(heap);
      if Better(heap[at], heap[i]) {
        at := i;
      }
    }
  }

  lemma {:induction false} Removed(heap: seq<Entry>, at: nat)
    requires at < |heap| && |heap| == |Elements(heap)|
    ensures var left := heap[..at] + heap[at + 1..];
            Elements(left) == Elements(heap) - {heap[at]} && |left| == |Elements(left)|
  {
    var left := heap[..at] + heap[at + 1..];
    assert forall e :: e in Elements(heap) <==> e in Elements(left) || e == heap[at] by {
      assert heap == heap[..at] + [heap[at]] + heap[at + 1..];
    }
    AtMost(left);
    assert Elements(heap) == Elements(left) + {heap[at]};
    assert heap[at] !in Elements(left) && |Elements(left)| == |heap| - 1;
  }

  lemma {:induction false} AtMost(s: seq<Entry>)
    ensures |Elements(s)| <= |s|
    decreases |s|
  {
    if s == [] {
      assert Elements(s) == {};
    } else {
      AtMost(s[1..]);
      assert Elements(s) == Elements(s[1..]) + {s[0]};
    }
  }

  lemma {:induction false} Pushed(heap: seq<Entry>, e: Entry)
    requires |heap| == |Elements(heap)|
    ensures Elements(heap + [e]) == Elements(heap) + {e}
    ensures e !in Elements(heap) ==> |heap + [e]| == |Elements(heap + [e])|
  {
    assert Elements(heap + [e]) == Elements(heap) + {e};
  }

  lemma {:induction false} RefusedStays(kept: set<Entry>, offered: set<Entry>, e: Entry, k: nat)
    requires BestK(kept, offered, k) && DistinctChunks(offered + {e}) && e !in offered
    requires k == 0 || (|kept| >= k && forall x | x in kept :: !Better(e, x))
    ensures BestK(kept, offered + {e}, k)
  {
    assert |offered + {e}| == |offered| + 1;
    forall a, b | a in kept && b in (offered + {e}) - kept ensures Better(a, b) {
      if b == e {
        assert a in offered + {e} && !Better(e, a);
      }
    }
  }

  lemma {:induction false} JoinedStays(kept: set<Entry>, offered: set<Entry>, e: Entry, k: nat)
    requires BestK(kept, offered, k) && e !in offered && |kept| < k
    ensures BestK(kept + {e}, offered + {e}, k)
  {
    assert |offered + {e}| == |offered| + 1 && |kept + {e}| == |kept| + 1;
    assert offered == kept + (offered - kept);
    assert |offered| == |kept| + |offered - kept|;
  }

  lemma {:induction false} ReplacedStays(kept: set<Entry>, offered: set<Entry>, e: Entry, k: nat, worst: Entry)
    requires BestK(kept, offered, k) && e !in offered && |kept| >= k && k > 0 && worst in kept
    requires forall x | x in kept && x != worst :: Better(x, worst)
    requires exists x :: x in kept && Better(e, x)
    ensures BestK(kept - {worst} + {e}, offered + {e}, k)
  {
    assert |offered + {e}| == |offered| + 1;
    assert |kept - {worst}| == |kept| - 1 && |kept - {worst} + {e}| == |kept|;
    assert Better(e, worst);
    var now := kept - {worst} + {e};
    forall a, b | a in now && b in offered + {e} - now ensures Better(a, b) {
      assert b == worst || (b in offered - kept && Better(worst, b));
      assert a == e || a in kept;
    }
  }

  method BestIndex(left: seq<Entry>) returns (at: nat)
    requires left != [] && DistinctChunks(Elements(left))
    ensures at < |left| && Elements(left) != {} && left[at] == BestOf(Elements(left))
  {
    at := 0;
    for i := 1 to |left|
      invariant at < i && forall j | 0 <= j < i && left[j] != left[at] :: Better(left[at], left[j])
    {
      assert left[i] in Elements(left) && left[at] in Elements(left);
      if Better(left[i], left[at]) {
        at := i;
      }
    }
    assert left[at] in Elements(left);
    IsBest(Elements(left), left[at]);
  }

  /** Take the best that is left until nothing is. */
  method SortBest(heap: seq<Entry>) returns (ranked: seq<Entry>)
    requires DistinctChunks(Elements(heap)) && |heap| == |Elements(heap)|
    ensures ranked == Sorted(Elements(heap))
  {
    var left := heap;
    ranked := [];
    while left != []
      invariant DistinctChunks(Elements(left)) && |left| == |Elements(left)|
      invariant ranked + Sorted(Elements(left)) == Sorted(Elements(heap))
      decreases |left|
    {
      var at := BestIndex(left);
      Removed(left, at);
      ranked := ranked + [left[at]];
      left := left[..at] + left[at + 1..];
    }
    assert Elements(left) == {};
  }

  lemma {:induction false} IsBest(s: set<Entry>, e: Entry)
    requires DistinctChunks(s) && e in s && forall x | x in s && x != e :: Better(e, x)
    ensures BestOf(s) == e
  {
    assert BestOf(s) != e ==> Better(e, BestOf(s)) && Better(BestOf(s), e);
  }

  // --------------------------------------------------------------- the scan

  datatype Key = Key(memory: nat, ordinal: int)

  predicate Before(a: Key, b: Key) {
    a.memory < b.memory || (a.memory == b.memory && a.ordinal < b.ordinal)
  }

  /** What the bytes of a row come to against the query: nothing, or a score for the
      values as stored, and one for the values at unit length if they have a length. */
  datatype Reading = Undecodable | Decoded(raw: int, unit: Option<int>)

  datatype Row = Row(key: Key, chunk: nat, dims: int, reading: Reading, readable: bool)

  datatype ScanError = PageOfZero | QueryWidth | QueryDirection | WidthOutsideU16 | WidthDiffers | BadVector | BadMemoryId | BadOrdinal

  datatype ScanQuery = ScanQuery(k: nat, dims: nat, width: nat, directed: bool, normalized: bool)

  datatype Outcome = Outcome(candidates: seq<Entry>, truncated: bool, scanned: nat, pages: nat)

  const U16 := 0x1_0000
  const U32 := 0x1_0000_0000

  datatype Verdict = Fault(error: ScanError) | Passed | Counted(entry: Entry)

  /** What one row contributes. */
  function Judge(row: Row, q: ScanQuery): Verdict {
    if !(0 <= row.dims < U16) then Fault(WidthOutsideU16)
    else if row.dims != q.dims then Fault(WidthDiffers)
    else match row.reading
      case Undecodable => Fault(BadVector)
      case Decoded(raw, unit) =>
        if q.normalized then Counted(Entry(raw, row.chunk, row.key.memory, row.key.ordinal, row.readable))
        else if unit.None? then Passed
        else Counted(Entry(unit.value, row.chunk, row.key.memory, row.key.ordinal, row.readable))
  }

  ghost predicate Sound(rows: seq<Row>, q: ScanQuery) {
    forall i | 0 <= i < |rows| :: !Judge(rows[i], q).Fault?
  }

  /** Every entry the rows hold. */
  ghost function EntriesOf(rows: seq<Row>, q: ScanQuery): set<Entry> {
    set i | 0 <= i < |rows| && Judge(rows[i], q).Counted? :: Judge(rows[i], q).entry
  }

  /** Rows of one scan, in key order, each chunk once. */
  ghost predicate Table(rows: seq<Row>) {
    && (forall i, j | 0 <= i < j < |rows| :: Before(rows[i].key, rows[j].key))
    && (forall i, j | 0 <= i < j < |rows| :: rows[i].chunk != rows[j].chunk)
  }

  lemma {:induction false} EntriesDistinct(rows: seq<Row>, q: ScanQuery)
    requires Table(rows)
    ensures DistinctChunks(EntriesOf(rows, q))
  {
    forall a, b | a in EntriesOf(rows, q) && b in EntriesOf(rows, q) && a.chunk == b.chunk ensures a == b {
      var i :| 0 <= i < |rows| && Judge(rows[i], q).Counted? && Judge(rows[i], q).entry == a;
      var j :| 0 <= j < |rows| && Judge(rows[j], q).Counted? && Judge(rows[j], q).entry == b;
      assert rows[i].chunk == rows[j].chunk;
    }
  }

  /** Score everything, sort it, take the first `k`. */
  ghost function SimpleTop(rows: seq<Row>, q: ScanQuery): seq<Entry>
    requires Table(rows)
  {
    EntriesDistinct(rows, q);
    First(Sorted(EntriesOf(rows, q)), q.k)
  }

  predicate After(row: Row, cursor: Option<Key>) {
    cursor.None? || Before(cursor.value, row.key)
  }

  /** The page contract: up to `size` rows after the cursor, in key order. */
  method Page(rows: seq<Row>, cursor: Option<Key>, size: nat) returns (page: seq<Row>, ghost at: nat)
    requires Table(rows)
    ensures at <= |rows| && (forall i | 0 <= i < at :: !After(rows[i], cursor)) && (forall i | at <= i < |rows| :: After(rows[i], cursor))
    ensures page == rows[at..if |rows| - at < size then |rows| else at + size]
  {
    var i := 0;
    while i < |rows| && !After(rows[i], cursor)
      invariant i <= |rows| && forall j | 0 <= j < i :: !After(rows[j], cursor)
    {
      i := i + 1;
    }
    at := i;
    page := rows[i..if |rows| - i < size then |rows| else i + size];
  }

  lemma {:induction false} EntriesSnoc(rows: seq<Row>, n: nat, q: ScanQuery)
    requires Table(rows) && n < |rows|
    ensures EntriesOf(rows[..n + 1], q)
         == EntriesOf(rows[..n], q) + match Judge(rows[n], q) case Counted(e) => {e} case _ => {}
    ensures Judge(rows[n], q).Counted? ==> Judge(rows[n], q).entry !in EntriesOf(rows[..n], q)
    ensures Table(rows[..n + 1])
  {
    var more, some := rows[..n + 1], rows[..n];
    forall e ensures e in EntriesOf(more, q) <==>
      e in EntriesOf(some, q) + match Judge(rows[n], q) case Counted(e) => {e} case _ => {}
    {
      if e in EntriesOf(some, q) {
        var i :| 0 <= i < n && Judge(some[i], q).Counted? && Judge(some[i], q).entry == e;
        assert more[i] == some[i];
      }
      if i :| 0 <= i < n + 1 && Judge(more[i], q).Counted? && Judge(more[i], q).entry == e {
        if i < n { assert some[i] == more[i]; }
      }
      assert more[n] == rows[n];
    }
  }

  /** Whether a candidate names a memory and a position that can be returned. */
  predicate Presentable(e: Entry) {
    e.readable && 0 <= e.ordinal < U32
  }

  /** The heap has been offered exactly the entries of the first `n` rows. */
  ghost predicate Caught(top: TopK, rows: seq<Row>, n: nat, q: ScanQuery)
    requires n <= |rows|
    reads top
  {
    top.Valid() && top.offered == EntriesOf(rows[..n], q) && Sound(rows[..n], q)
  }

  lemma {:induction false} SoundSnoc(rows: seq<Row>, n: nat, q: ScanQuery)
    requires n < |rows| && Sound(rows[..n], q) && !Judge(rows[n], q).Fault?
    ensures Sound(rows[..n + 1], q)
  {
    var some, more := rows[..n], rows[..n + 1];
    forall j | 0 <= j < |more| ensures !Judge(more[j], q).Fault? {
      assert j < n ==> more[j] == some[j];
    }
  }

  method ScanRow(top: TopK, ghost rows: seq<Row>, ghost n: nat, row: Row, q: ScanQuery) returns (fault: Option<ScanError>)
    requires Table(rows) && n < |rows| && row == rows[n] && Caught(top, rows, n, q)
    modifies top
    ensures fault.None? ==> Caught(top, rows, n + 1, q)
    ensures fault.Some? ==> !Sound(rows, q)
  {
    EntriesSnoc(rows, n, q);
    match Judge(row, q)
    case Fault(error) => fault := Some(error);
    case Passed =>
      SoundSnoc(rows, n, q);
      fault := None;
    case Counted(e) =>
      SoundSnoc(rows, n, q);
      EntriesDistinct(rows[..n + 1], q);
      top.Offer(e);
      fault := None;
  }

  /** One page through the heap. */
  method ScanPage(top: TopK, ghost rows: seq<Row>, ghost from: nat, page: seq<Row>, q: ScanQuery) returns (fault: Option<ScanError>)
    requires Table(rows) && from + |page| <= |rows| && page == rows[from..from + |page|] && Caught(top, rows, from, q)
    modifies top
    ensures fault.None? ==> Caught(top, rows, from + |page|, q)
    ensures fault.Some? ==> !Sound(rows, q)
  {
    for i := 0 to |page|
      invariant Caught(top, rows, from + i, q)
    {
      assert page[i] == rows[from + i];
      fault := ScanRow(top, rows, from + i, page[i], q);
      if fault.Some? {
        return;
      }
    }
    fault := None;
  }

  lemma {:induction false} Another(n: nat, size: nat)
    ensures (n + 1) * size == n * size + size
  {
  }

  /** Where the cursor stands after the first `n` rows. */
  function CursorAfter(rows: seq<Row>, n: nat): Option<Key>
    requires n <= |rows|
  {
    if n == 0 then None else Some(rows[n - 1].key)
  }

  /** Fetch and scan one page: the next rows, as many as fit, none twice. */
  method NextPage(top: TopK, rows: seq<Row>, q: ScanQuery, pageSize: nat, cursor: Option<Key>, ghost scanned: nat)
    returns (fault: Option<ScanError>, count: nat, next: Option<Key>)
    requires Table(rows) && pageSize > 0 && scanned <= |rows| && cursor == CursorAfter(rows, scanned)
    requires Caught(top, rows, scanned, q)
    modifies top
    ensures count == if |rows| - scanned < pageSize then |rows| - scanned else pageSize
    ensures fault.None? ==> Caught(top, rows, scanned + count, q) && next == CursorAfter(rows, scanned + count)
    ensures fault.Some? ==> !Sound(rows, q)
  {
    var page;
    ghost var at;
    page, at := Page(rows, cursor, pageSize);
    CursorAt(rows, scanned, cursor, at);
    count, next := |page|, cursor;
    if page == [] {
      return None, count, next;
    }
    next := Some(page[|page| - 1].key);
    fault := ScanPage(top, rows, scanned, page, q);
  }

  /** The pages of a scan, until they run out or the time does. */
  method ScanPages(top: TopK, rows: seq<Row>, q: ScanQuery, pageSize: nat, timeUp: nat -> bool)
    returns (fault: Option<ScanError>, scanned: nat, pages: nat, truncated: bool)
    requires Table(rows) && pageSize > 0 && top.Valid() && top.offered == {}
    modifies top
    ensures scanned <= |rows|
    ensures fault.None? ==> Caught(top, rows, scanned, q)
    ensures fault.None? && !truncated ==> scanned == |rows|
    ensures fault.None? && truncated ==> scanned == pages * pageSize && timeUp(pages)
    ensures fault.None? ==> (pages - 1) * pageSize <= scanned <= pages * pageSize
    ensures fault.Some? ==> !Sound(rows, q)
  {
    var cursor: Option<Key> := None;
    scanned, pages, truncated, fault := 0, 0, false, None;
    var done := false;
    ghost var room := 0;
    assert EntriesOf(rows[..0], q) == {};
    while !done
      invariant scanned <= |rows| && Caught(top, rows, scanned, q) && fault.None?
      invariant cursor == CursorAfter(rows, scanned)
      invariant room == pages * pageSize
      invariant !done ==> !truncated && scanned == room
      invariant done && !truncated ==> scanned == |rows|
      invariant done && truncated ==> scanned == room && timeUp(pages)
      invariant room - pageSize <= scanned <= room
      decreases |rows| - scanned, !done
    {
      var count;
      fault, count, cursor := NextPage(top, rows, q, pageSize, cursor, scanned);
      if fault.Some? {
        return;
      }
      if count == 0 {
        done := true;
      } else {
        Another(pages, pageSize);
        pages, room := pages + 1, room + pageSize;
        scanned := scanned + count;
        if count < pageSize {
          done := true;
        } else if timeUp(pages) {
          truncated, done := true, true;
        }
      }
    }
    assert (pages - 1) * pageSize == room - pageSize;
  }

  /** The scan. `timeUp` says, page by page, whether the budget is spent. */
  method ScanRows(rows: seq<Row>, q: ScanQuery, pageSize: nat, timeUp: nat -> bool) returns (r: Result<Outcome, ScanError>)
    requires Table(rows)
    ensures pageSize == 0 ==> r == Err(PageOfZero)
    ensures pageSize > 0 && q.width != q.dims ==> r == Err(QueryWidth)
    ensures pageSize > 0 && q.width == q.dims && !q.directed ==> r == Err(QueryDirection)
    ensures pageSize > 0 && q.width == q.dims && q.directed && q.k == 0 ==> r == Ok(Outcome([], false, 0, 0))
    ensures r.Ok? && q.k > 0 ==>
      && r.value.scanned <= |rows| && Sound(rows[..r.value.scanned], q)
      && r.value.candidates == SimpleTop(rows[..r.value.scanned], q)
      && (!r.value.truncated ==> r.value.scanned == |rows|)
      && (r.value.truncated ==> r.value.scanned == r.value.pages * pageSize && timeUp(r.value.pages))
      && (r.value.pages - 1) * pageSize <= r.value.scanned <= r.value.pages * pageSize
    ensures r.Err? && pageSize > 0 && q.width == q.dims && q.directed && q.k > 0 ==> !Sound(rows, q) || Misnamed(rows, q)
  {
    if pageSize == 0 {
      return Err(PageOfZero);
    }
    if q.width != q.dims {
      return Err(QueryWidth);
    }
    if !q.directed {
      return Err(QueryDirection);
    }
    if q.k == 0 {
      return Ok(Outcome([], false, 0, 0));
    }
    var top := new TopK(q.k);
    var fault, scanned, pages, truncated := ScanPages(top, rows, q, pageSize, timeUp);
    if fault.Some? {
      return Err(fault.value);
    }
    var ranked := top.IntoSorted();
    assert Table(rows[..scanned]);
    EntriesDistinct(rows[..scanned], q);
    var bad := FindBad(ranked);
    if bad.Some? {
      MisnamedAmong(rows, scanned, q, ranked);
      return Err(bad.value);
    }
    r := Ok(Outcome(ranked, truncated, scanned, pages));
  }

  /** Some row that scores cannot be presented. */
  ghost predicate Misnamed(rows: seq<Row>, q: ScanQuery) {
    exists i :: 0 <= i < |rows| && Judge(rows[i], q).Counted? && !Presentable(Judge(rows[i], q).entry)
  }

  lemma {:induction false} MisnamedAmong(rows: seq<Row>, n: nat, q: ScanQuery, ranked: seq<Entry>)
    requires Table(rows) && n <= |rows| && DistinctChunks(EntriesOf(rows[..n], q))
    requires ranked == First(Sorted(EntriesOf(rows[..n], q)), q.k) && exists e :: e in ranked && !Presentable(e)
    ensures Misnamed(rows, q)
  {
    var e :| e in ranked && !Presentable(e);
    SortedRanks(EntriesOf(rows[..n], q));
    assert e in Sorted(EntriesOf(rows[..n], q));
    var i :| 0 <= i < n && Judge(rows[..n][i], q).Counted? && Judge(rows[..n][i], q).entry == e;
    assert rows[i] == rows[..n][i];
  }

  lemma {:induction false} CursorAt(rows: seq<Row>, scanned: nat, cursor: Option<Key>, at: nat)
    requires Table(rows) && scanned <= |rows| && cursor == if scanned == 0 then None else Some(rows[scanned - 1].key)
    requires at <= |rows| && (forall i | 0 <= i < at :: !After(rows[i], cursor)) && (forall i | at <= i < |rows| :: After(rows[i], cursor))
    ensures at == scanned
  {
    forall i | 0 <= i < scanned ensures !After(rows[i], cursor) {
    }
    forall i | scanned <= i < |rows| ensures After(rows[i], cursor) {
    }
    assert at < |rows| ==> After(rows[at], cursor);
    assert scanned < |rows| ==> After(rows[scanned], cursor);
  }

  /** The ids of the candidates are parsed last. */
  method FindBad(ranked: seq<Entry>) returns (bad: Option<ScanError>)
    ensures bad.Some? <==> exists e :: e in ranked && !Presentable(e)
  {
    bad := None;
    for i := 0 to |ranked|
      invariant bad.None? && forall j | 0 <= j < i :: Presentable(ranked[j])
    {
      assert ranked[i] in ranked;
      if !ranked[i].readable {
        return Some(BadMemoryId);
      }
      if !(0 <= ranked[i].ordinal < U32) {
        return Some(BadOrdinal);
      }
    }
  }
}
