/** Splitting a text into overlapping chunks without ever cutting a character. */
module Chunker {

  import opened Wrappers

  type Byte = b: int | 0 <= b < 0x100

  /** One character as section 3 of RFC 3629 encodes it. Which characters are white
      space is a property of the character database, so it is carried along. */
  datatype Scalar = Scalar(bytes: seq<Byte>, space: bool)

  predicate Continuation(b: Byte) {
    0x80 <= b < 0xC0
  }

  predicate Encoded(c: Scalar) {
    var s := c.bytes;
    && (forall i | 1 <= i < |s| :: Continuation(s[i]))
    && match |s|
       case 1 => s[0] < 0x80
       case 2 => 0xC2 <= s[0] < 0xE0
       case 3 => 0xE0 <= s[0] < 0xF0 && (s[0] == 0xE0 ==> 0xA0 <= s[1]) && (s[0] == 0xED ==> s[1] < 0xA0)
       case 4 => 0xF0 <= s[0] < 0xF5 && (s[0] == 0xF0 ==> 0x90 <= s[1]) && (s[0] == 0xF4 ==> s[1] < 0x90)
       case _ => false
  }

  predicate Newline(c: Scalar) { c.bytes == [0x0A] }

  predicate EndsSentence(c: Scalar) { c.bytes in {[0x2E], [0x21], [0x3F]} }

  /** Well-formed text; a line feed is white space and the three marks are not. */
  ghost predicate Utf8(body: seq<Scalar>) {
    forall i | 0 <= i < |body| :: Encoded(body[i]) && (Newline(body[i]) ==> body[i].space) && (EndsSentence(body[i]) ==> !body[i].space)
  }

  function Flat(body: seq<Scalar>): seq<Byte>
    decreases |body|
  {
    if body == [] then [] else Flat(body[..|body| - 1]) + body[|body| - 1].bytes
  }

  function Offset(body: seq<Scalar>, i: nat): nat
    requires i <= |body|
  {
    |Flat(body[..i])|
  }

  lemma {:induction false} OffsetStep(body: seq<Scalar>, i: nat)
    requires i < |body|
    ensures Offset(body, i + 1) == Offset(body, i) + |body[i].bytes|
    ensures Flat(body[..i + 1]) == Flat(body[..i]) + body[i].bytes
  {
    assert body[..i + 1][..i] == body[..i];
  }

  lemma {:induction false} PrefixFlat(body: seq<Scalar>, i: nat)
    requires i <= |body|
    ensures Offset(body, i) <= |Flat(body)| && Flat(body)[..Offset(body, i)] == Flat(body[..i])
    decreases |body| - i
  {
    if i == |body| {
      assert body[..i] == body;
    } else {
      OffsetStep(body, i);
      PrefixFlat(body, i + 1);
      assert Flat(body)[..Offset(body, i)] == Flat(body)[..Offset(body, i + 1)][..Offset(body, i)];
    }
  }

  lemma {:induction false} OffsetsRise(body: seq<Scalar>, i: nat, j: nat)
    requires Utf8(body) && i <= j <= |body|
    ensures Offset(body, i) <= Offset(body, j) && (i < j ==> Offset(body, i) < Offset(body, j))
    decreases j - i
  {
    if i < j {
      OffsetStep(body, j - 1);
      assert Encoded(body[j - 1]);
      OffsetsRise(body, i, j - 1);
    }
  }

  /** How the program recognises a place where a character may start. */
  predicate Boundary(text: seq<Byte>, o: nat) {
    o == 0 || o == |text| || (o < |text| && !Continuation(text[o]))
  }

  lemma {:induction false} CharBytes(body: seq<Scalar>, i: nat, k: nat)
    requires Utf8(body) && i < |body| && k < |body[i].bytes|
    ensures Offset(body, i) + k < |Flat(body)| && Flat(body)[Offset(body, i) + k] == body[i].bytes[k]
  {
    OffsetStep(body, i);
    PrefixFlat(body, i + 1);
    var o := Offset(body, i);
    assert Flat(body)[o + k] == Flat(body)[..Offset(body, i + 1)][o + k];
    assert Flat(body[..i + 1])[o + k] == body[i].bytes[k];
  }

  lemma {:induction false} Locate(body: seq<Scalar>, o: nat) returns (i: nat)
    requires Utf8(body) && o < |Flat(body)|
    ensures i < |body| && Offset(body, i) <= o < Offset(body, i) + |body[i].bytes|
  {
    i := 0;
    assert Flat(body[..0]) == [];
    assert body[..|body|] == body;
    while Offset(body, i) + |body[i].bytes| <= o
      invariant i < |body| && Offset(body, i) <= o
      decreases |body| - i
    {
      OffsetStep(body, i);
      i := i + 1;
    }
  }

  /** The byte test is right: it holds exactly between characters. */
  lemma {:induction false} BoundariesAreOffsets(body: seq<Scalar>, o: nat)
    requires Utf8(body)
    ensures Boundary(Flat(body), o) <==> exists i :: 0 <= i <= |body| && Offset(body, i) == o
  {
    var text := Flat(body);
    assert Flat(body[..0]) == [] && Offset(body, 0) == 0;
    assert body[..|body|] == body && Offset(body, |body|) == |text|;
    if o < |text| {
      var i := Locate(body, o);
      CharBytes(body, i, o - Offset(body, i));
      assert Encoded(body[i]);
      if !Continuation(text[o]) {
        assert Offset(body, i) == o;
      } else if j :| 0 <= j <= |body| && Offset(body, j) == o {
        if j <= i {
          OffsetsRise(body, j, i);
        } else {
          OffsetStep(body, i);
          OffsetsRise(body, i + 1, j);
        }
      }
    } else if o > |text| {
      forall j | 0 <= j <= |body| ensures Offset(body, j) != o {
        PrefixFlat(body, j);
      }
    }
  }

  // ------------------------------------------------------------- boundaries

  /** The last boundary at or before `offset`. */
  method Floor(text: seq<Byte>, offset: nat) returns (o: nat)
    ensures o <= offset && o <= |text| && Boundary(text, o)
    ensures forall b: nat | Boundary(text, b) && b <= offset && b <= |text| :: b <= o
  {
    o := if offset < |text| then offset else |text|;
    while o > 0 && !Boundary(text, o)
      invariant o <= offset && o <= |text|
      invariant forall b: nat | Boundary(text, b) && b <= offset && b <= |text| :: b <= o
    {
      o := o - 1;
    }
  }

  /** The first boundary after `start`: one character on. */
  method NextChar(text: seq<Byte>, start: nat) returns (o: nat)
    requires start < |text|
    ensures start < o <= |text| && Boundary(text, o) && forall b: nat | start < b < o :: !Boundary(text, b)
  {
    o := start + 1;
    while !Boundary(text, o)
      decreases |text| - o
      invariant start < o <= |text| && forall b: nat | start < b < o :: !Boundary(text, b)
    {
      o := o + 1;
    }
  }

  /** A sentence is over after a line feed, and after white space that directly follows
      one of the three marks. */
  predicate SentenceOver(body: seq<Scalar>, i: nat)
    requires i < |body|
  {
    Newline(body[i]) || (body[i].space && i > 0 && EndsSentence(body[i - 1]))
  }

  ghost predicate Mark(body: seq<Scalar>, o: nat) {
    o == 0 || o == |Flat(body)| || MarkedBy(body, |body|, o)
  }

  /** Marked by one of the first `n` characters. */
  ghost predicate MarkedBy(body: seq<Scalar>, n: nat, o: nat)
    requires n <= |body|
  {
    exists j :: 0 <= j < n && SentenceOver(body, j) && o == Offset(body, j + 1)
  }

  lemma {:induction false} MarkedNext(body: seq<Scalar>, n: nat)
    requires n < |body|
    ensures forall o: nat :: MarkedBy(body, n + 1, o) <==> MarkedBy(body, n, o) || (SentenceOver(body, n) && o == Offset(body, n + 1))
  {
    forall o: nat ensures MarkedBy(body, n + 1, o) <==> MarkedBy(body, n, o) || (SentenceOver(body, n) && o == Offset(body, n + 1)) {
      if MarkedBy(body, n, o) {
        var j :| 0 <= j < n && SentenceOver(body, j) && o == Offset(body, j + 1);
      }
    }
  }

  ghost predicate Rising(marks: seq<nat>) {
    forall i, j | 0 <= i < j < |marks| :: marks[i] < marks[j]
  }

  /** One pass over the characters, with one bit of memory. */
  method SentenceBoundaries(body: seq<Scalar>) returns (marks: seq<nat>)
    requires Utf8(body)
    ensures Rising(marks) && forall o: nat :: o in marks <==> Mark(body, o)
  {
    marks := [0];
    var ended := false;
    var offset := 0;
    assert Flat(body[..0]) == [];
    for i := 0 to |body|
      invariant |marks| > 0 && marks[0] == 0
      invariant offset == Offset(body, i) && Rising(marks) && marks[|marks| - 1] <= offset
      invariant ended <==> i > 0 && EndsSentence(body[i - 1])
      invariant forall o: nat :: o in marks <==> o == 0 || MarkedBy(body, i, o)
    {
      var c := body[i];
      assert Encoded(c);
      OffsetStep(body, i);
      MarkedNext(body, i);
      assert SentenceOver(body, i) <==> Newline(c) || (ended && c.space && !EndsSentence(c));
      offset := offset + |c.bytes|;
      if Newline(c) {
        marks := marks + [offset];
        ended := false;
      } else if EndsSentence(c) {
        ended := true;
      } else if ended && c.space {
        marks := marks + [offset];
        ended := false;
      } else if !c.space {
        ended := false;
      }
    }
    assert body[..|body|] == body;
    if marks[|marks| - 1] != offset {
      marks := marks + [offset];
    }
  }

  lemma {:induction false} MarksAreBoundaries(body: seq<Scalar>, o: nat)
    requires Utf8(body) && Mark(body, o)
    ensures Boundary(Flat(body), o) && o <= |Flat(body)|
  {
    if i :| 0 <= i < |body| && SentenceOver(body, i) && o == Offset(body, i + 1) {
      BoundariesAreOffsets(body, o);
      PrefixFlat(body, i + 1);
    }
  }

  /** The last mark in `(low, high]`. */
  method LastMark(marks: seq<nat>, low: nat, high: nat) returns (m: Option<nat>)
    requires Rising(marks)
    ensures m.Some? ==> m.value in marks && low < m.value <= high && forall x | x in marks && low < x <= high :: x <= m.value
    ensures m.None? ==> forall x | x in marks :: !(low < x <= high)
  {
    var i := |marks|;
    while i > 0
      invariant 0 <= i <= |marks| && forall j | i <= j < |marks| :: !(low < marks[j] <= high)
    {
      i := i - 1;
      if low < marks[i] <= high {
        return Some(marks[i]);
      }
    }
    return None;
  }

  // --------------------------------------------------------------- splitting

  datatype Config = Config(threshold: nat, target: nat, overlap: nat, maxChunks: nat)

  predicate Valid(c: Config) {
    c.threshold > 0 && c.target > 0 && c.maxChunks > 0 && c.overlap <= c.target / 2
  }

  datatype Chunk = Chunk(ordinal: nat, start: nat, end: nat, text: seq<Byte>)

  datatype ChunkError = TooManyChunks

  /** One character on from `start`, and no further. */
  ghost predicate OneChar(text: seq<Byte>, start: nat, end: nat) {
    start < end <= |text| && Boundary(text, end) && forall b: nat | start < b < end :: !Boundary(text, b)
  }

  /** A chunk is a nonempty slice between characters, no larger than asked unless it is
      a single character. */
  ghost predicate Slice(text: seq<Byte>, c: Chunk, target: nat) {
    && c.start < c.end <= |text| && Boundary(text, c.start) && Boundary(text, c.end)
    && c.text == text[c.start..c.end]
    && (c.end - c.start <= target || OneChar(text, c.start, c.end))
  }

  /** How one chunk follows another: strictly later, leaving no gap, overlapping as much
      as asked or advancing by one character. */
  ghost predicate Follows(text: seq<Byte>, a: Chunk, b: Chunk, overlap: nat) {
    && b.ordinal == a.ordinal + 1 && a.start < b.start <= a.end <= b.end
    && (a.end - b.start >= overlap || OneChar(text, a.start, b.start))
  }

  /** Where a sentence ends within reach, the chunk ends at the last such place. */
  ghost predicate EndsWell(body: seq<Scalar>, c: Chunk, prior: nat, cfg: Config) {
    forall m: nat | Mark(body, m) && c.start + cfg.overlap < m <= c.start + cfg.target && prior < m :: Mark(body, c.end) && m <= c.end
  }

  function PriorEnd(chunks: seq<Chunk>, i: nat): nat
    requires i <= |chunks|
  {
    if i == 0 then 0 else chunks[i - 1].end
  }

  ghost predicate Chunking(body: seq<Scalar>, chunks: seq<Chunk>, cfg: Config) {
    var text := Flat(body);
    && (forall i | 0 <= i < |chunks| :: Slice(text, chunks[i], cfg.target))
    && (forall i | 0 <= i < |chunks| - 1 :: Follows(text, chunks[i], chunks[i + 1], cfg.overlap))
    && (forall i | 0 <= i < |chunks| :: EndsWell(body, chunks[i], PriorEnd(chunks, i), cfg))
    && (chunks != [] ==> chunks[0].start == 0 && chunks[0].ordinal == 0)
  }

  /** The last boundary at or before `o`. */
  ghost function FloorAt(text: seq<Byte>, o: nat): (f: nat)
    requires o <= |text|
    ensures f <= o && Boundary(text, f) && forall b: nat | Boundary(text, b) && b <= o :: b <= f
    decreases o
  {
    if Boundary(text, o) then o else FloorAt(text, o - 1)
  }

  /** The first boundary at or after `o`. */
  ghost function NextAt(text: seq<Byte>, o: nat): (n: nat)
    requires o <= |text|
    ensures o <= n <= |text| && Boundary(text, n) && forall b: nat | o <= b < n :: !Boundary(text, b)
    decreases |text| - o
  {
    if Boundary(text, o) then o else NextAt(text, o + 1)
  }

  /** The last place in `(low, high]` where a sentence is over. */
  ghost function MarkAt(body: seq<Scalar>, low: nat, high: nat): (m: Option<nat>)
    ensures m.Some? ==> Mark(body, m.value) && low < m.value <= high && forall x: nat | Mark(body, x) && low < x <= high :: x <= m.value
    ensures m.None? ==> forall x: nat | Mark(body, x) :: !(low < x <= high)
    decreases high
  {
    if high <= low then None else if Mark(body, high) then Some(high) else MarkAt(body, low, high - 1)
  }

  /** Where a chunk would end, were sentences all that counts: the last mark in reach, or
      else the last boundary. */
  ghost function FirstEnd(body: seq<Scalar>, start: nat, target: nat): (end: nat)
    requires Utf8(body) && target <= |Flat(body)|
    ensures end <= target && Boundary(Flat(body), end)
  {
    match MarkAt(body, start, target)
    case Some(mark) =>
      MarksAreBoundaries(body, mark);
      mark
    case None => FloorAt(Flat(body), target)
  }

  ghost function EndFor(body: seq<Scalar>, cfg: Config, start: nat, prior: nat): (end: nat)
    requires Utf8(body) && start < |Flat(body)|
    ensures start < end <= |Flat(body)| && Boundary(Flat(body), end)
  {
    var text := Flat(body);
    var target := if start + cfg.target < |text| then start + cfg.target else |text|;
    var floor, first := FloorAt(text, target), FirstEnd(body, start, target);
    var far := if first < |text| && first <= start + cfg.overlap then floor else first;
    var later := if far <= prior then floor else far;
    if later <= start then NextAt(text, start + 1) else later
  }

  ghost function StartFor(body: seq<Scalar>, cfg: Config, start: nat, end: nat): (next: nat)
    requires Utf8(body) && start < end < |Flat(body)| && Boundary(Flat(body), end)
    ensures start < next <= end && Boundary(Flat(body), next)
  {
    var text := Flat(body);
    var next := FirstEnd(body, start, if end >= cfg.overlap then end - cfg.overlap else 0);
    if next <= start then NextAt(text, start + 1) else next
  }

  ghost function ChunkAt(body: seq<Scalar>, cfg: Config, start: nat, prior: nat, ordinal: nat): (c: Chunk)
    requires Utf8(body) && start < |Flat(body)|
    ensures c.start == start < c.end <= |Flat(body)| && Boundary(Flat(body), c.end) && c.ordinal == ordinal
  {
    var end := EndFor(body, cfg, start, prior);
    Chunk(ordinal, start, end, Flat(body)[start..end])
  }

  /** The chunks from `start` on, with no limit on how many. */
  ghost function ChunksFrom(body: seq<Scalar>, cfg: Config, start: nat, prior: nat, ordinal: nat): seq<Chunk>
    requires Utf8(body) && start < |Flat(body)|
    decreases |Flat(body)| - start, 1
  {
    var c := ChunkAt(body, cfg, start, prior, ordinal);
    [c] + RestAfter(body, cfg, c)
  }

  ghost function RestAfter(body: seq<Scalar>, cfg: Config, c: Chunk): seq<Chunk>
    requires Utf8(body) && c.start < c.end <= |Flat(body)| && Boundary(Flat(body), c.end)
    decreases |Flat(body)| - c.start, 0
  {
    if c.end == |Flat(body)| then [] else ChunksFrom(body, cfg, StartFor(body, cfg, c.start, c.end), c.end, c.ordinal + 1)
  }

  /** The chunks of a text past the threshold. */
  ghost function Chunks(body: seq<Scalar>, cfg: Config): seq<Chunk>
    requires Utf8(body) && |Flat(body)| > 0
  {
    ChunksFrom(body, cfg, 0, 0, 0)
  }

  /** The list still to come completes the list so far. */
  ghost predicate Completes(body: seq<Scalar>, cfg: Config, chunks: seq<Chunk>, start: nat)
    requires Utf8(body) && start < |Flat(body)|
  {
    Chunks(body, cfg) == chunks + ChunksFrom(body, cfg, start, PriorEnd(chunks, |chunks|), |chunks|)
  }

  lemma {:induction false} Moved(all: seq<Chunk>, chunks: seq<Chunk>, c: Chunk, rest: seq<Chunk>)
    requires all == chunks + ([c] + rest)
    ensures all == chunks + [c] + rest && |all| >= |chunks| + 1 && PriorEnd(chunks + [c], |chunks + [c]|) == c.end
    ensures rest == [] ==> all == chunks + [c]
  {
  }

  lemma {:induction false} CompletesStep(body: seq<Scalar>, cfg: Config, chunks: seq<Chunk>, start: nat, c: Chunk)
    requires Utf8(body) && start < |Flat(body)| && Completes(body, cfg, chunks, start)
    requires c == ChunkAt(body, cfg, start, PriorEnd(chunks, |chunks|), |chunks|)
    ensures |Chunks(body, cfg)| >= |chunks| + 1
    ensures c.end == |Flat(body)| ==> Chunks(body, cfg) == chunks + [c]
    ensures c.end != |Flat(body)| ==> Completes(body, cfg, chunks + [c], StartFor(body, cfg, start, c.end))
  {
    Moved(Chunks(body, cfg), chunks, c, RestAfter(body, cfg, c));
  }

  /** Where the chunk that starts at `start` ends. */
  method EndOf(body: seq<Scalar>, text: seq<Byte>, marks: seq<nat>, cfg: Config, start: nat, prior: nat) returns (end: nat)
    requires Utf8(body) && text == Flat(body) && Rising(marks) && (forall o: nat :: o in marks <==> Mark(body, o))
    requires Valid(cfg) && start < |text| && Boundary(text, start)
    ensures end == EndFor(body, cfg, start, prior)
    ensures start < end <= |text| && Boundary(text, end)
    ensures end - start <= cfg.target || OneChar(text, start, end)
    ensures forall m: nat | Mark(body, m) && start + cfg.overlap < m <= start + cfg.target && prior < m :: Mark(body, end) && m <= end
    ensures forall b: nat | Boundary(text, b) && b <= prior && b <= start + cfg.target && b <= |text| :: b <= end
  {
    var target := if start + cfg.target < |text| then start + cfg.target else |text|;
    var floor := Floor(text, target);
    var mark := LastMark(marks, start, target);
    if mark.Some? {
      MarksAreBoundaries(body, mark.value);
      end := mark.value;
    } else {
      end := floor;
    }
    forall m: nat | Mark(body, m) && start < m <= start + cfg.target ensures m in marks && m <= target {
      MarksAreBoundaries(body, m);
    }
    if end < |text| && end <= start + cfg.overlap {
      end := floor;
    }
    if end <= prior {
      end := floor;
    }
    if end <= start {
      end := NextChar(text, start);
    }
  }

  /** Where the next chunk starts. */
  method StartOf(body: seq<Scalar>, text: seq<Byte>, marks: seq<nat>, cfg: Config, start: nat, end: nat) returns (next: nat)
    requires Utf8(body) && text == Flat(body) && Rising(marks) && (forall o: nat :: o in marks <==> Mark(body, o))
    requires start < end < |text| && Boundary(text, start) && Boundary(text, end)
    ensures next == StartFor(body, cfg, start, end)
    ensures start < next <= end && Boundary(text, next)
    ensures end - next >= cfg.overlap || OneChar(text, start, next)
  {
    var desired := if end >= cfg.overlap then end - cfg.overlap else 0;
    var mark := LastMark(marks, start, desired);
    if mark.Some? {
      MarksAreBoundaries(body, mark.value);
      next := mark.value;
    } else {
      next := Floor(text, desired);
    }
    if next <= start {
      next := NextChar(text, start);
    }
  }

  /** Chunks so far, and where the next one is to start. */
  ghost predicate Ready(body: seq<Scalar>, chunks: seq<Chunk>, start: nat, cfg: Config) {
    && start < |Flat(body)| && Boundary(Flat(body), start) && Chunking(body, chunks, cfg)
    && if chunks == [] then start == 0
       else
         var last := chunks[|chunks| - 1];
         last.ordinal == |chunks| - 1 && last.start < start <= last.end
         && (last.end - start >= cfg.overlap || OneChar(Flat(body), last.start, start))
  }

  method NextChunk(body: seq<Scalar>, text: seq<Byte>, marks: seq<nat>, cfg: Config, start: nat, chunks: seq<Chunk>) returns (c: Chunk)
    requires Utf8(body) && text == Flat(body) && Rising(marks) && (forall o: nat :: o in marks <==> Mark(body, o))
    requires Valid(cfg) && Ready(body, chunks, start, cfg)
    ensures c == ChunkAt(body, cfg, start, PriorEnd(chunks, |chunks|), |chunks|)
    ensures start < c.end <= |text| && Boundary(text, c.end)
    ensures Chunking(body, chunks + [c], cfg)
  {
    var prior := if chunks == [] then 0 else chunks[|chunks| - 1].end;
    var end := EndOf(body, text, marks, cfg, start, prior);
    c := Chunk(|chunks|, start, end, text[start..end]);
    EndsRise(text, chunks, c, prior, cfg);
    Extends(body, chunks, c, cfg);
  }

  /** The chunks of a text past the threshold. */
  method SplitLong(body: seq<Scalar>, text: seq<Byte>, cfg: Config) returns (r: Result<seq<Chunk>, ChunkError>)
    requires Utf8(body) && text == Flat(body) && |text| > 0 && Valid(cfg)
    ensures r == if |Chunks(body, cfg)| > cfg.maxChunks then Err(TooManyChunks) else Ok(Chunks(body, cfg))
    ensures r.Ok? ==> Chunking(body, r.value, cfg) && r.value[|r.value| - 1].end == |text|
  {
    var marks := SentenceBoundaries(body);
    var chunks: seq<Chunk> := [];
    var start := 0;
    assert [] + Chunks(body, cfg) == Chunks(body, cfg);
    while true
      invariant Ready(body, chunks, start, cfg) && |chunks| <= cfg.maxChunks
      invariant Completes(body, cfg, chunks, start)
      decreases |text| - start
    {
      var c := NextChunk(body, text, marks, cfg, start, chunks);
      CompletesStep(body, cfg, chunks, start, c);
      chunks := chunks + [c];
      if |chunks| > cfg.maxChunks {
        return Err(TooManyChunks);
      }
      if c.end == |text| {
        return Ok(chunks);
      }
      start := StartOf(body, text, marks, cfg, start, c.end);
    }
  }

  method Split(body: seq<Scalar>, cfg: Config) returns (r: Result<seq<Chunk>, ChunkError>)
    requires Utf8(body) && Valid(cfg)
    ensures body == [] ==> r == Ok([])
    ensures 0 < |Flat(body)| <= cfg.threshold ==> r == Ok([Chunk(0, 0, |Flat(body)|, Flat(body))])
    ensures |Flat(body)| > cfg.threshold ==>
      (r == if |Chunks(body, cfg)| > cfg.maxChunks then Err(TooManyChunks) else Ok(Chunks(body, cfg)))
    ensures r.Ok? && |Flat(body)| > cfg.threshold ==>
      Chunking(body, r.value, cfg) && r.value != [] && r.value[|r.value| - 1].end == |Flat(body)|
  {
    var text := Flat(body);
    if body == [] {
      return Ok([]);
    }
    NotEmpty(body);
    if |text| <= cfg.threshold {
      assert text[0..|text|] == text;
      return Ok([Chunk(0, 0, |text|, text[0..|text|])]);
    }
    r := SplitLong(body, text, cfg);
  }

  lemma {:induction false} NotEmpty(body: seq<Scalar>)
    requires Utf8(body) && body != []
    ensures |Flat(body)| > 0
  {
    assert Encoded(body[|body| - 1]);
  }

  /** The end of a chunk is not before the end of the one before it. */
  lemma {:induction false} EndsRise(text: seq<Byte>, chunks: seq<Chunk>, c: Chunk, prior: nat, cfg: Config)
    requires forall i | 0 <= i < |chunks| :: Slice(text, chunks[i], cfg.target)
    requires prior == if chunks == [] then 0 else chunks[|chunks| - 1].end
    requires c.start < c.end <= |text|
    requires chunks != [] ==> chunks[|chunks| - 1].start < c.start <= prior
    requires forall b: nat | Boundary(text, b) && b <= prior && b <= c.start + cfg.target && b <= |text| :: b <= c.end
    requires Boundary(text, c.start)
    ensures prior <= c.end
  {
    if chunks != [] {
      var last := chunks[|chunks| - 1];
      assert Slice(text, last, cfg.target);
    }
  }

  lemma {:induction false} Extends(body: seq<Scalar>, chunks: seq<Chunk>, c: Chunk, cfg: Config)
    requires Chunking(body, chunks, cfg) && Slice(Flat(body), c, cfg.target)
    requires chunks == [] ==> c.start == 0 && c.ordinal == 0
    requires chunks != [] ==> Follows(Flat(body), chunks[|chunks| - 1], c, cfg.overlap)
    requires EndsWell(body, c, PriorEnd(chunks, |chunks|), cfg)
    ensures Chunking(body, chunks + [c], cfg)
  {
    var all := chunks + [c];
    ExtendsFollowing(Flat(body), chunks, c, cfg.overlap);
    forall i | 0 <= i < |all| ensures EndsWell(body, all[i], PriorEnd(all, i), cfg) {
      assert PriorEnd(all, i) == PriorEnd(chunks, i);
      if i < |chunks| {
        assert EndsWell(body, chunks[i], PriorEnd(chunks, i), cfg);
      }
    }
  }

  lemma {:induction false} ExtendsFollowing(text: seq<Byte>, chunks: seq<Chunk>, c: Chunk, overlap: nat)
    requires forall i | 0 <= i < |chunks| - 1 :: Follows(text, chunks[i], chunks[i + 1], overlap)
    requires chunks != [] ==> Follows(text, chunks[|chunks| - 1], c, overlap)
    ensures var all := chunks + [c]; forall i | 0 <= i < |all| - 1 :: Follows(text, all[i], all[i + 1], overlap)
  {
    var all := chunks + [c];
    forall i | 0 <= i < |all| - 1 ensures Follows(text, all[i], all[i + 1], overlap) {
      if i < |chunks| - 1 {
        assert all[i] == chunks[i] && all[i + 1] == chunks[i + 1];
      }
    }
  }

  // -------------------------------------------------------------- reassembly

  /** The text of the chunks with what each repeats of the one before it dropped. */
  function Reassembled(chunks: seq<Chunk>): seq<Byte>
    requires forall i | 0 <= i < |chunks| :: chunks[i].start <= chunks[i].end && |chunks[i].text| == chunks[i].end - chunks[i].start
    requires forall i | 0 <= i < |chunks| - 1 :: chunks[i + 1].start <= chunks[i].end <= chunks[i + 1].end
    decreases |chunks|
  {
    if chunks == [] then []
    else if |chunks| == 1 then chunks[0].text
    else
      var last, before := chunks[|chunks| - 1], chunks[|chunks| - 2];
      Reassembled(chunks[..|chunks| - 1]) + last.text[before.end - last.start..]
  }

  lemma {:induction false} ChunkingShape(body: seq<Scalar>, chunks: seq<Chunk>, cfg: Config)
    requires Chunking(body, chunks, cfg)
    ensures forall i | 0 <= i < |chunks| :: chunks[i].start <= chunks[i].end && |chunks[i].text| == chunks[i].end - chunks[i].start
    ensures forall i | 0 <= i < |chunks| - 1 :: chunks[i + 1].start <= chunks[i].end <= chunks[i + 1].end
  {
    forall i | 0 <= i < |chunks| ensures chunks[i].start <= chunks[i].end && |chunks[i].text| == chunks[i].end - chunks[i].start {
      assert Slice(Flat(body), chunks[i], cfg.target);
    }
    forall i | 0 <= i < |chunks| - 1 ensures chunks[i + 1].start <= chunks[i].end <= chunks[i + 1].end {
      assert Follows(Flat(body), chunks[i], chunks[i + 1], cfg.overlap);
    }
  }

  lemma {:induction false} ChunkingFront(body: seq<Scalar>, chunks: seq<Chunk>, cfg: Config)
    requires Chunking(body, chunks, cfg) && |chunks| > 1
    ensures Chunking(body, chunks[..|chunks| - 1], cfg)
  {
    var front := chunks[..|chunks| - 1];
    forall i | 0 <= i < |front| - 1 ensures Follows(Flat(body), front[i], front[i + 1], cfg.overlap) {
      assert Follows(Flat(body), chunks[i], chunks[i + 1], cfg.overlap);
    }
    forall i | 0 <= i < |front| ensures EndsWell(body, front[i], PriorEnd(front, i), cfg) {
      assert EndsWell(body, chunks[i], PriorEnd(chunks, i), cfg);
    }
  }

  lemma {:induction false} TailOfSlice(text: seq<Byte>, start: nat, from: nat, end: nat)
    requires start <= from <= end <= |text|
    ensures text[..from] + text[start..end][from - start..] == text[..end]
  {
  }

  /** Nothing is lost: dropping the overlaps gives back the text up to the last end. */
  lemma {:induction false} ReassemblesPrefix(body: seq<Scalar>, chunks: seq<Chunk>, cfg: Config)
    requires Chunking(body, chunks, cfg) && chunks != []
    ensures forall i | 0 <= i < |chunks| :: chunks[i].start <= chunks[i].end && |chunks[i].text| == chunks[i].end - chunks[i].start
    ensures forall i | 0 <= i < |chunks| - 1 :: chunks[i + 1].start <= chunks[i].end <= chunks[i + 1].end
    ensures chunks[|chunks| - 1].end <= |Flat(body)| && Reassembled(chunks) == Flat(body)[..chunks[|chunks| - 1].end]
    decreases |chunks|
  {
    var text := Flat(body);
    ChunkingShape(body, chunks, cfg);
    var last := chunks[|chunks| - 1];
    assert Slice(text, last, cfg.target);
    if |chunks| > 1 {
      ChunkingFront(body, chunks, cfg);
      ReassemblesPrefix(body, chunks[..|chunks| - 1], cfg);
      TailOfSlice(text, last.start, chunks[|chunks| - 2].end, last.end);
    }
  }
}
