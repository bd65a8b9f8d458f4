/** Greedy longest-match tokenization of normalized text. */
module WordPiece {

  import opened Wrappers

  /** A character with the two classes the tokenizer asks about. */
  datatype Letter = Letter(code: nat, space: bool, mark: bool)

  type Word = seq<Letter>

  datatype Tokenizer = Tokenizer(vocab: map<Word, nat>, unknown: nat, prefix: Word, maxWordChars: nat, splitPunctuation: bool)

  /** The unknown id is itself an entry of the vocabulary. */
  ghost predicate Loaded(t: Tokenizer) {
    exists w :: w in t.vocab && t.vocab[w] == t.unknown
  }

  // ------------------------------------------------------------------ words

  predicate Alone(t: Tokenizer, c: Letter) {
    t.splitPunctuation && c.mark
  }

  predicate Plain(t: Tokenizer, c: Letter) {
    !c.space && !Alone(t, c)
  }

  function Flushed(current: Word): seq<Word> {
    if current == [] then [] else [current]
  }

  /** The words of `text`, when `current` has been read and not yet ended. */
  function WordsFrom(t: Tokenizer, current: Word, text: Word): seq<Word>
    decreases |text|
  {
    if text == [] then Flushed(current)
    else if text[0].space then Flushed(current) + WordsFrom(t, [], text[1..])
    else if Alone(t, text[0]) then Flushed(current) + [[text[0]]] + WordsFrom(t, [], text[1..])
    else WordsFrom(t, current + [text[0]], text[1..])
  }

  function WordsOf(t: Tokenizer, text: Word): seq<Word> {
    WordsFrom(t, [], text)
  }

  /** White space separates and disappears. */
  lemma {:induction false} SpaceSeparates(t: Tokenizer, current: Word, a: Word, s: Letter, b: Word)
    requires s.space
    ensures WordsFrom(t, current, a + [s] + b) == WordsFrom(t, current, a) + WordsOf(t, b)
    decreases |a|
  {
    if a == [] {
      assert (a + [s] + b)[1..] == b && (a + [s] + b)[0] == s;
    } else {
      assert (a + [s] + b)[0] == a[0] && (a + [s] + b)[1..] == a[1..] + [s] + b;
      if a[0].space || Alone(t, a[0]) {
        SpaceSeparates(t, [], a[1..], s, b);
      } else {
        SpaceSeparates(t, current + [a[0]], a[1..], s, b);
      }
    }
  }

  /** Punctuation separates and is a word of its own. */
  lemma {:induction false} MarkSeparates(t: Tokenizer, current: Word, a: Word, p: Letter, b: Word)
    requires !p.space && Alone(t, p)
    ensures WordsFrom(t, current, a + [p] + b) == WordsFrom(t, current, a) + [[p]] + WordsOf(t, b)
    decreases |a|
  {
    if a == [] {
      assert (a + [p] + b)[1..] == b && (a + [p] + b)[0] == p;
    } else {
      assert (a + [p] + b)[0] == a[0] && (a + [p] + b)[1..] == a[1..] + [p] + b;
      if a[0].space || Alone(t, a[0]) {
        MarkSeparates(t, [], a[1..], p, b);
      } else {
        MarkSeparates(t, current + [a[0]], a[1..], p, b);
      }
    }
  }

  /** What nothing separates is one word. */
  lemma {:induction false} PlainIsOneWord(t: Tokenizer, current: Word, a: Word)
    requires forall i | 0 <= i < |a| :: Plain(t, a[i])
    ensures WordsFrom(t, current, a) == Flushed(current + a)
    decreases |a|
  {
    if a == [] {
      assert current + a == current;
    } else {
      PlainIsOneWord(t, current + [a[0]], a[1..]);
      assert current + [a[0]] + a[1..] == current + a;
    }
  }

  method Words(t: Tokenizer, text: Word) returns (words: seq<Word>)
    ensures words == WordsOf(t, text)
  {
    words := [];
    var current: Word := [];
    for i := 0 to |text|
      invariant WordsOf(t, text) == words + WordsFrom(t, current, text[i..])
    {
      var c := text[i];
      assert text[i..][0] == c && text[i..][1..] == text[i + 1..];
      if c.space {
        words := words + Flushed(current);
        current := [];
      } else if Alone(t, c) {
        words := words + Flushed(current);
        words := words + [[c]];
        current := [];
      } else {
        current := current + [c];
      }
    }
    words := words + Flushed(current);
  }

  // ----------------------------------------------------------------- pieces

  /** What is looked up for `word[from..to]`: continuations carry the prefix. */
  function Piece(t: Tokenizer, word: Word, from: nat, to: nat): Word
    requires from <= to <= |word|
  {
    if from == 0 then word[from..to] else t.prefix + word[from..to]
  }

  /** The longest match at `from` ends at `to`. */
  ghost predicate Longest(t: Tokenizer, word: Word, from: nat, to: nat) {
    && from < to <= |word| && Piece(t, word, from, to) in t.vocab
    && forall e | to < e <= |word| :: Piece(t, word, from, e) !in t.vocab
  }

  ghost predicate Stuck(t: Tokenizer, word: Word, from: nat) {
    from < |word| && forall e | from < e <= |word| :: Piece(t, word, from, e) !in t.vocab
  }

  /** Cuts of `word[..cuts.last]` into longest matches, one after another. */
  ghost predicate Greedy(t: Tokenizer, word: Word, cuts: seq<nat>) {
    && |cuts| > 0 && cuts[0] == 0
    && forall i | 0 <= i < |cuts| - 1 :: Longest(t, word, cuts[i], cuts[i + 1])
  }

  function IdAt(t: Tokenizer, word: Word, from: nat, to: nat): nat {
    if from < to <= |word| && Piece(t, word, from, to) in t.vocab then t.vocab[Piece(t, word, from, to)] else t.unknown
  }

  /** The ids of the pieces between the cuts. */
  function IdsOf(t: Tokenizer, word: Word, cuts: seq<nat>): (ids: seq<nat>)
    ensures |ids| == if |cuts| == 0 then 0 else |cuts| - 1
    decreases |cuts|
  {
    if |cuts| <= 1 then []
    else IdsOf(t, word, cuts[..|cuts| - 1]) + [IdAt(t, word, cuts[|cuts| - 2], cuts[|cuts| - 1])]
  }

  /** The pieces between the cuts put together are the word. */
  lemma {:induction false} PiecesMakeWord(t: Tokenizer, word: Word, cuts: seq<nat>)
    requires Greedy(t, word, cuts)
    ensures cuts[|cuts| - 1] <= |word| && Joined(word, cuts) == word[..cuts[|cuts| - 1]]
    decreases |cuts|
  {
    if |cuts| > 1 {
      var front := cuts[..|cuts| - 1];
      assert Longest(t, word, cuts[|cuts| - 2], cuts[|cuts| - 1]);
      assert Greedy(t, word, front) by {
        forall i | 0 <= i < |front| - 1 ensures Longest(t, word, front[i], front[i + 1]) {
          assert Longest(t, word, cuts[i], cuts[i + 1]);
        }
      }
      PiecesMakeWord(t, word, front);
    }
  }

  function Joined(word: Word, cuts: seq<nat>): Word
    decreases |cuts|
  {
    if |cuts| <= 1 then []
    else
      var a, b := cuts[|cuts| - 2], cuts[|cuts| - 1];
      Joined(word, cuts[..|cuts| - 1]) + (if a <= b <= |word| then word[a..b] else [])
  }

  /** There is one greedy way: two cuttings agree as far as both go. */
  lemma {:induction false} GreedyIsUnique(t: Tokenizer, word: Word, a: seq<nat>, b: seq<nat>, i: nat)
    requires Greedy(t, word, a) && Greedy(t, word, b) && i < |a| && i < |b|
    ensures a[i] == b[i]
  {
    if i > 0 {
      GreedyIsUnique(t, word, a, b, i - 1);
      assert Longest(t, word, a[i - 1], a[i]) && Longest(t, word, b[i - 1], b[i]);
    }
  }

  /** The end of the longest match at `from` that ends at `top` or before, or `from`. */
  function MatchEnd(t: Tokenizer, word: Word, from: nat, top: nat): (e: nat)
    requires from <= top <= |word|
    ensures from <= e <= top
    decreases top
  {
    if top == from then from
    else if Piece(t, word, from, top) in t.vocab then top
    else MatchEnd(t, word, from, top - 1)
  }

  lemma {:induction false} MatchEndIsLongest(t: Tokenizer, word: Word, from: nat, top: nat)
    requires from <= top <= |word| && forall e | top < e <= |word| :: Piece(t, word, from, e) !in t.vocab
    ensures var e := MatchEnd(t, word, from, top);
            from <= e <= top && (if e > from then Longest(t, word, from, e) else from == |word| || Stuck(t, word, from))
    decreases top
  {
    if top > from && Piece(t, word, from, top) !in t.vocab {
      MatchEndIsLongest(t, word, from, top - 1);
    }
  }

  /** The ids of `word[from..]`, longest match after longest match, if that reaches the end. */
  function Segment(t: Tokenizer, word: Word, from: nat): Option<seq<nat>>
    requires from <= |word|
    decreases |word| - from
  {
    if from == |word| then Some([])
    else
      MatchEndIsLongest(t, word, from, |word|);
      var e := MatchEnd(t, word, from, |word|);
      if e == from then None else Prepended([IdAt(t, word, from, e)], Segment(t, word, e))
  }

  function Prepended(head: seq<nat>, rest: Option<seq<nat>>): Option<seq<nat>> {
    match rest
    case None => None
    case Some(ids) => Some(head + ids)
  }

  lemma {:induction false} PrependedTwice(a: seq<nat>, b: seq<nat>, rest: Option<seq<nat>>)
    ensures Prepended(a, Prepended(b, rest)) == Prepended(a + b, rest)
    ensures Prepended([], rest) == rest
  {
    if rest.Some? {
      assert a + (b + rest.value) == a + b + rest.value;
      assert [] + rest.value == rest.value;
    }
  }

  /** Segment, one match at a time. */
  lemma {:induction false} SegmentStep(t: Tokenizer, word: Word, from: nat)
    requires from < |word|
    ensures var e := MatchEnd(t, word, from, |word|);
            if e == from then Segment(t, word, from) == None && Stuck(t, word, from)
            else Longest(t, word, from, e) && Segment(t, word, from) == Prepended([IdAt(t, word, from, e)], Segment(t, word, e))
  {
    MatchEndIsLongest(t, word, from, |word|);
  }

  function Tokens(t: Tokenizer, word: Word): seq<nat> {
    if |word| > t.maxWordChars then [t.unknown]
    else match Segment(t, word, 0)
      case None => [t.unknown]
      case Some(ids) => ids
  }

  /** `segment` says of a cutting that began with `head` whether it got stuck, or where it ended. */
  predicate Tells(segment: Option<seq<nat>>, head: seq<nat>, full: seq<nat>, stuck: bool, done: bool) {
    match segment
    case None => stuck
    case Some(ids) => done && full == head + ids
  }

  lemma {:induction false} TellsBack(segment: Option<seq<nat>>, head: seq<nat>, id: nat, full: seq<nat>, stuck: bool, done: bool)
    requires Tells(segment, head + [id], full, stuck, done)
    ensures Tells(Prepended([id], segment), head, full, stuck, done)
  {
    if segment.Some? {
      assert head + ([id] + segment.value) == head + [id] + segment.value;
    }
  }

  /** A segmentation is a greedy cutting to the end of the word, and its absence is a
      greedy cutting that gets stuck. */
  lemma {:induction false} SegmentFrom(t: Tokenizer, word: Word, cuts: seq<nat>) returns (all: seq<nat>)
    requires Greedy(t, word, cuts) && cuts[|cuts| - 1] <= |word|
    ensures Greedy(t, word, all) && all[|all| - 1] <= |word|
    ensures Tells(Segment(t, word, cuts[|cuts| - 1]), IdsOf(t, word, cuts), IdsOf(t, word, all),
                  Stuck(t, word, all[|all| - 1]), all[|all| - 1] == |word|)
    decreases |word| - cuts[|cuts| - 1]
  {
    var from := cuts[|cuts| - 1];
    all := cuts;
    if from == |word| {
      assert IdsOf(t, word, cuts) + [] == IdsOf(t, word, cuts);
    } else {
      SegmentStep(t, word, from);
      var e := MatchEnd(t, word, from, |word|);
      if e > from {
        CutsGrow(t, word, cuts, e);
        all := SegmentFrom(t, word, cuts + [e]);
        TellsBack(Segment(t, word, e), IdsOf(t, word, cuts), IdAt(t, word, from, e), IdsOf(t, word, all),
                  Stuck(t, word, all[|all| - 1]), all[|all| - 1] == |word|);
      }
    }
  }

  /** Each word gives one unknown id, or ids of pieces that put together are the word,
      each the longest match where it starts; and which of the two is decided by the word. */
  lemma {:induction false} TokensMean(t: Tokenizer, word: Word) returns (cuts: seq<nat>)
    requires |word| <= t.maxWordChars
    ensures Greedy(t, word, cuts) && cuts[|cuts| - 1] <= |word|
    ensures cuts[|cuts| - 1] == |word| ==> Tokens(t, word) == IdsOf(t, word, cuts) && Joined(word, cuts) == word
    ensures cuts[|cuts| - 1] < |word| ==> Stuck(t, word, cuts[|cuts| - 1]) && Tokens(t, word) == [t.unknown]
  {
    cuts := SegmentFrom(t, word, [0]);
    assert IdsOf(t, word, [0]) == [];
    PiecesMakeWord(t, word, cuts);
    assert word[..|word|] == word;
  }

  lemma {:induction false} CutsGrow(t: Tokenizer, word: Word, cuts: seq<nat>, end: nat)
    requires Greedy(t, word, cuts) && Longest(t, word, cuts[|cuts| - 1], end)
    ensures Greedy(t, word, cuts + [end])
    ensures IdsOf(t, word, cuts + [end]) == IdsOf(t, word, cuts) + [IdAt(t, word, cuts[|cuts| - 1], end)]
  {
    var more := cuts + [end];
    forall i | 0 <= i < |more| - 1 ensures Longest(t, word, more[i], more[i + 1]) {
      if i < |cuts| - 1 {
        assert Longest(t, word, cuts[i], cuts[i + 1]);
      }
    }
    assert more[..|more| - 1] == cuts;
  }

  /** The longest match at `start`, tried from the end of the word backwards. */
  method Match(t: Tokenizer, word: Word, start: nat) returns (found: Option<(nat, nat)>)
    requires start < |word|
    ensures var e := MatchEnd(t, word, start, |word|);
            found == if e > start && Piece(t, word, start, e) in t.vocab then Some((IdAt(t, word, start, e), e)) else None
  {
    var end := |word|;
    while end > start
      invariant start <= end <= |word|
      invariant MatchEnd(t, word, start, |word|) == MatchEnd(t, word, start, end)
    {
      var piece := Piece(t, word, start, end);
      if piece in t.vocab {
        return Some((t.vocab[piece], end));
      }
      end := end - 1;
    }
    return None;
  }

  method PushWord(t: Tokenizer, word: Word, before: seq<nat>) returns (ids: seq<nat>)
    ensures ids == before + Tokens(t, word)
  {
    if |word| > t.maxWordChars {
      return before + [t.unknown];
    }
    var pieces: seq<nat> := [];
    var start := 0;
    PrependedTwice([], [], Segment(t, word, 0));
    while start < |word|
      invariant start <= |word|
      invariant Segment(t, word, 0) == Prepended(pieces, Segment(t, word, start))
      decreases |word| - start
    {
      SegmentStep(t, word, start);
      var found := Match(t, word, start);
      match found {
        case None => return before + [t.unknown];
        case Some(m) =>
          PrependedTwice(pieces, [m.0], Segment(t, word, m.1));
          pieces := pieces + [m.0];
          start := m.1;
      }
    }
    ids := before + pieces;
  }

  // ----------------------------------------------------------------- encode

  /** The tokens of the words, one after another, without limit. */
  function Encoding(t: Tokenizer, words: seq<Word>): seq<nat>
    decreases |words|
  {
    if words == [] then [] else Tokens(t, words[0]) + Encoding(t, words[1..])
  }

  lemma {:induction false} EncodingAppend(t: Tokenizer, a: seq<Word>, b: seq<Word>)
    ensures Encoding(t, a + b) == Encoding(t, a) + Encoding(t, b)
    decreases |a|
  {
    if a == [] {
      assert a + b == b;
    } else {
      assert (a + b)[1..] == a[1..] + b;
      EncodingAppend(t, a[1..], b);
    }
  }

  function Truncated(ids: seq<nat>, limit: nat): seq<nat> {
    if |ids| <= limit then ids else ids[..limit]
  }

  /** At most `limit` ids: exactly the first ones of the unlimited encoding. */
  method Encode(t: Tokenizer, text: Word, limit: nat) returns (ids: seq<nat>)
    ensures ids == Truncated(Encoding(t, WordsOf(t, text)), limit)
  {
    var words := Words(t, text);
    ids := [];
    var i := 0;
    while i < |words| && |ids| < limit
      invariant i <= |words| && ids == Encoding(t, words[..i])
    {
      ids := PushWord(t, words[i], ids);
      assert words[..i + 1] == words[..i] + [words[i]];
      EncodingAppend(t, words[..i], [words[i]]);
      assert [words[i]][1..] == [];
      i := i + 1;
    }
    EncodingAppend(t, words[..i], words[i..]);
    assert words[..i] + words[i..] == words;
    if |ids| > limit {
      ids := ids[..limit];
    }
  }

  // -------------------------------------------------------------- id bounds

  /** One more than the largest id in the vocabulary, or zero for an empty one. */
  method IdBound(t: Tokenizer) returns (bound: nat)
    ensures forall w | w in t.vocab :: t.vocab[w] < bound
    ensures bound > 0 ==> exists w :: w in t.vocab && t.vocab[w] + 1 == bound
  {
    bound := 0;
    var left := t.vocab.Keys;
    while left != {}
      invariant left <= t.vocab.Keys
      invariant forall w | w in t.vocab && w !in left :: t.vocab[w] < bound
      invariant bound > 0 ==> exists w :: w in t.vocab && t.vocab[w] + 1 == bound
      decreases |left|
    {
      var w :| w in left;
      if t.vocab[w] >= bound {
        bound := t.vocab[w] + 1;
      }
      left := left - {w};
    }
  }

  /** No encoding holds an id at or above the bound. */
  lemma {:induction false} EncodingStaysBelow(t: Tokenizer, words: seq<Word>, bound: nat)
    requires Loaded(t) && (forall w | w in t.vocab :: t.vocab[w] < bound)
    ensures forall i | 0 <= i < |Encoding(t, words)| :: Encoding(t, words)[i] < bound
    decreases |words|
  {
    if words != [] {
      EncodingStaysBelow(t, words[1..], bound);
      SegmentStaysBelow(t, words[0], 0, bound);
      var w :| w in t.vocab && t.vocab[w] == t.unknown;
    }
  }

  lemma {:induction false} SegmentStaysBelow(t: Tokenizer, word: Word, from: nat, bound: nat)
    requires from <= |word| && (forall w | w in t.vocab :: t.vocab[w] < bound)
    ensures Segment(t, word, from).Some? ==> forall i | 0 <= i < |Segment(t, word, from).value| :: Segment(t, word, from).value[i] < bound
    decreases |word| - from
  {
    if from < |word| {
      MatchEndIsLongest(t, word, from, |word|);
      var e := MatchEnd(t, word, from, |word|);
      if e > from {
        SegmentStaysBelow(t, word, e, bound);
      }
    }
  }
}
