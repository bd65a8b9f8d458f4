/** The text every detector reads and every fingerprint covers.

    Unicode composition is a parameter: any function that behaves as UAX #15 says its
    normalization form C does, in the four respects used here. */
module Normalize {

  /** A code point, and whether Unicode calls it white space. */
  datatype Point = Point(code: nat, space: bool)

  type Text = seq<Point>

  const REMOVED: set<nat> := {
    0x00AD, 0x180E, 0x200B, 0x200C, 0x200D, 0x200E, 0x200F, 0x202A, 0x202B, 0x202C,
    0x202D, 0x202E, 0x2060, 0x2066, 0x2067, 0x2068, 0x2069, 0xFEFF}

  const NEWLINE := 0x0A

  /** A line feed is white space. */
  ghost predicate Classed(s: Text) {
    forall i | 0 <= i < |s| :: s[i].code == NEWLINE ==> s[i].space
  }

  ghost predicate NoneRemoved(s: Text) {
    forall i | 0 <= i < |s| :: s[i].code !in REMOVED
  }

  predicate Composed(s: Text, compose: Text -> Text) {
    compose(s) == s
  }

  function Part(s: Text, i: nat, j: nat): Text
    requires i <= j <= |s|
  {
    s[i..j]
  }

  function Around(a: Text, n: Point, b: Text): Text {
    a + [n] + b
  }

  /** What is assumed of composition. */
  ghost predicate ComposesLikeNFC(compose: Text -> Text) {
    // It is a normal form.
    && (forall s {:trigger Composed(compose(s), compose)} :: Composed(compose(s), compose))
    // Every part of a composed text is composed.
    && (forall s, i: nat, j: nat {:trigger Composed(Part(s, i, j), compose)} | i <= j <= |s| && Composed(s, compose) ::
          Composed(Part(s, i, j), compose))
    // A line feed composes with nothing on either side of it.
    && (forall a, n: Point, b {:trigger compose(Around(a, n, b))} | n.code == NEWLINE ::
          compose(Around(a, n, b)) == compose(a) + [n] + compose(b))
    // No removed character is a composition of others, and no line feed changes class.
    && (forall s {:trigger NoneRemoved(compose(s))} {:trigger Classed(compose(s))} | NoneRemoved(s) && Classed(s) ::
          NoneRemoved(compose(s)) && Classed(compose(s)))
  }

  // ------------------------------------------------------------- the three steps

  function Stripped(raw: Text): Text
    decreases |raw|
  {
    if raw == [] then []
    else (if raw[0].code in REMOVED then [] else [raw[0]]) + Stripped(raw[1..])
  }

  function TrimEnd(s: Text): (left: Text)
    ensures left <= s
    decreases |s|
  {
    if s != [] && s[|s| - 1].space then TrimEnd(s[..|s| - 1]) else s
  }

  /** White space before a line feed or the end goes; line feeds stay. */
  function Tidy(s: Text): Text
    decreases |s|
  {
    if s == [] then []
    else
      var rest := Tidy(s[1..]);
      if s[0].code != NEWLINE && s[0].space && (rest == [] || rest[0].code == NEWLINE) then rest else [s[0]] + rest
  }

  function Normal(raw: Text, compose: Text -> Text): Text {
    TrimEnd(Tidy(compose(Stripped(raw))))
  }

  // ------------------------------------------------------------------ lemmas

  lemma {:induction false} StrippedClean(raw: Text)
    ensures NoneRemoved(Stripped(raw)) && (Classed(raw) ==> Classed(Stripped(raw)))
    decreases |raw|
  {
    if raw != [] {
      StrippedClean(raw[1..]);
    }
  }

  lemma {:induction false} StrippedStays(s: Text)
    requires NoneRemoved(s)
    ensures Stripped(s) == s
    decreases |s|
  {
    if s != [] {
      StrippedStays(s[1..]);
    }
  }

  lemma {:induction false} TrimEndIsPrefix(s: Text)
    ensures TrimEnd(s) != [] ==> !TrimEnd(s)[|TrimEnd(s)| - 1].space
    ensures forall i | |TrimEnd(s)| <= i < |s| :: s[i].space
    decreases |s|
  {
    if s != [] && s[|s| - 1].space {
      TrimEndIsPrefix(s[..|s| - 1]);
    }
  }

  /** No white space stands right before a line feed or, line feeds aside, at the end. */
  ghost predicate LinesTrimmed(s: Text) {
    forall i | 0 <= i < |s| && s[i].space && s[i].code != NEWLINE :: i + 1 < |s| && s[i + 1].code != NEWLINE
  }

  ghost predicate EndsClean(s: Text) {
    s != [] ==> !s[|s| - 1].space
  }

  lemma {:induction false} TidyTrims(s: Text)
    ensures LinesTrimmed(Tidy(s))
    ensures NoneRemoved(s) ==> NoneRemoved(Tidy(s))
    ensures Classed(s) ==> Classed(Tidy(s))
    decreases |s|
  {
    if s != [] {
      TidyTrims(s[1..]);
    }
  }

  lemma {:induction false} TidyStays(s: Text)
    requires LinesTrimmed(s)
    ensures Tidy(s) == s
    decreases |s|
  {
    if s != [] {
      assert LinesTrimmed(s[1..]) by {
        forall i | 0 <= i < |s[1..]| && s[1..][i].space && s[1..][i].code != NEWLINE
          ensures i + 1 < |s[1..]| && s[1..][i + 1].code != NEWLINE
        {
          assert s[1..][i] == s[i + 1];
        }
      }
      TidyStays(s[1..]);
    }
  }

  lemma {:induction false} TrimKeepsLines(s: Text)
    requires LinesTrimmed(s)
    ensures LinesTrimmed(TrimEnd(s)) && EndsClean(TrimEnd(s)) && TrimEnd(TrimEnd(s)) == TrimEnd(s)
  {
    TrimEndIsPrefix(s);
    var left := TrimEnd(s);
    forall i | 0 <= i < |left| && left[i].space && left[i].code != NEWLINE ensures i + 1 < |left| && left[i + 1].code != NEWLINE {
      assert left[i] == s[i];
    }
  }

  /** Where the first line ends. */
  function LineLength(s: Text): (n: nat)
    ensures n <= |s| && (n < |s| ==> s[n].code == NEWLINE) && forall i | 0 <= i < n :: s[i].code != NEWLINE
    decreases |s|
  {
    if s == [] || s[0].code == NEWLINE then 0 else 1 + LineLength(s[1..])
  }

  /** A line is tidied by trimming its end. */
  lemma {:induction false} TidyOneLine(line: Text)
    requires forall i | 0 <= i < |line| :: line[i].code != NEWLINE
    ensures Tidy(line) == TrimEnd(line)
    decreases |line|
  {
    if line != [] {
      TidyOneLine(line[1..]);
      TrimFront(line);
      assert TrimEnd(line[1..]) <= line[1..];
      assert TrimEnd(line[1..]) != [] ==> TrimEnd(line[1..])[0] == line[1];
    }
  }

  lemma {:induction false} TrimFront(s: Text)
    requires s != []
    ensures TrimEnd(s) == if TrimEnd(s[1..]) == [] && s[0].space then [] else [s[0]] + TrimEnd(s[1..])
    decreases |s|
  {
    if |s| == 1 {
      assert s[1..] == [] && s[..0] == [];
    } else if s[|s| - 1].space {
      TrimFront(s[..|s| - 1]);
      assert s[..|s| - 1][1..] == s[1..][..|s| - 2];
    }
  }

  /** Lines are tidied one by one. */
  lemma {:induction false} TidyByLine(line: Text, n: Point, rest: Text)
    requires (forall i | 0 <= i < |line| :: line[i].code != NEWLINE) && n.code == NEWLINE
    ensures Tidy(line + [n] + rest) == TrimEnd(line) + [n] + Tidy(rest)
    decreases |line|
  {
    var s := line + [n] + rest;
    if line == [] {
      assert s[0] == n && s[1..] == rest;
    } else {
      assert s[0] == line[0] && s[1..] == line[1..] + [n] + rest;
      TidyByLine(line[1..], n, rest);
      TrimFront(line);
      var after := TrimEnd(line[1..]);
      assert after != [] ==> after[0] == line[1];
      assert (after + [n] + Tidy(rest))[0] == if after == [] then n else after[0];
    }
  }

  lemma {:induction false} PrefixComposed(s: Text, n: nat, compose: Text -> Text)
    requires ComposesLikeNFC(compose) && Composed(s, compose) && n <= |s|
    ensures Composed(s[..n], compose) && Composed(s[n..], compose)
  {
    assert Composed(Part(s, 0, n), compose) && Composed(Part(s, n, |s|), compose);
    assert s[..n] == Part(s, 0, n) && s[n..] == Part(s, n, |s|);
  }

  lemma {:induction false} TrimComposed(s: Text, compose: Text -> Text)
    requires ComposesLikeNFC(compose) && Composed(s, compose)
    ensures Composed(TrimEnd(s), compose)
  {
    PrefixComposed(s, |TrimEnd(s)|, compose);
    assert TrimEnd(s) == s[..|TrimEnd(s)|];
  }

  lemma {:induction false} LinesComposed(a: Text, n: Point, b: Text, compose: Text -> Text)
    requires ComposesLikeNFC(compose) && Composed(a, compose) && Composed(b, compose) && n.code == NEWLINE
    ensures Composed(a + [n] + b, compose)
  {
    assert compose(Around(a, n, b)) == compose(a) + [n] + compose(b);
  }

  /** Tidying composed text leaves it composed. */
  lemma {:induction false} TidyComposed(s: Text, compose: Text -> Text)
    requires ComposesLikeNFC(compose) && Composed(s, compose)
    ensures Composed(Tidy(s), compose)
    decreases |s|
  {
    var k := LineLength(s);
    var line := s[..k];
    PrefixComposed(s, k, compose);
    TrimComposed(line, compose);
    if k == |s| {
      assert line == s;
      TidyOneLine(s);
    } else {
      var n, rest := s[k], s[k + 1..];
      PrefixComposed(s, k + 1, compose);
      TidyComposed(rest, compose);
      assert s == line + [n] + rest;
      TidyByLine(line, n, rest);
      LinesComposed(TrimEnd(line), n, Tidy(rest), compose);
    }
  }

  // ---------------------------------------------------------------- theorems

  /** The result hides nothing and trails nothing. */
  lemma {:induction false} NormalIsClean(raw: Text, compose: Text -> Text)
    requires ComposesLikeNFC(compose) && Classed(raw)
    ensures var s := Normal(raw, compose); NoneRemoved(s) && LinesTrimmed(s) && EndsClean(s) && Composed(s, compose)
  {
    StrippedClean(raw);
    var composed := compose(Stripped(raw));
    assert Composed(composed, compose) && NoneRemoved(composed);
    TidyTrims(composed);
    TrimKeepsLines(Tidy(composed));
    TidyComposed(composed, compose);
    TrimComposed(Tidy(composed), compose);
  }

  /** Clean text is left alone, so normalizing twice is normalizing once. */
  lemma {:induction false} NormalIsIdempotent(raw: Text, compose: Text -> Text)
    requires ComposesLikeNFC(compose) && Classed(raw)
    ensures Normal(Normal(raw, compose), compose) == Normal(raw, compose)
  {
    NormalIsClean(raw, compose);
    var s := Normal(raw, compose);
    StrippedStays(s);
    TidyStays(s);
  }

  /** The normal forms are exactly the texts that are already clean. */
  lemma {:induction false} FixedIffClean(s: Text, compose: Text -> Text)
    requires ComposesLikeNFC(compose) && Classed(s)
    ensures Normal(s, compose) == s <==> NoneRemoved(s) && LinesTrimmed(s) && EndsClean(s) && Composed(s, compose)
  {
    if Normal(s, compose) == s {
      NormalIsClean(s, compose);
    }
    if NoneRemoved(s) && LinesTrimmed(s) && EndsClean(s) && Composed(s, compose) {
      StrippedStays(s);
      TidyStays(s);
    }
  }

  datatype Digest = Digest(kind: nat, text: Text)

  /** A fingerprint covers the kind and the normalized text. */
  function Fingerprint(kind: nat, text: Text, compose: Text -> Text): Digest {
    Digest(kind, Normal(text, compose))
  }

  /** What the gate admitted and what is read back from its row have one fingerprint, and
      two bodies share it exactly when the gate makes them the same. */
  lemma {:induction false} FingerprintSurvivesStorage(kind: nat, raw: Text, other: Text, compose: Text -> Text)
    requires ComposesLikeNFC(compose) && Classed(raw)
    ensures Fingerprint(kind, Normal(raw, compose), compose) == Fingerprint(kind, raw, compose)
    ensures Fingerprint(kind, other, compose) == Fingerprint(kind, raw, compose) <==> Normal(other, compose) == Normal(raw, compose)
  {
    NormalIsIdempotent(raw, compose);
  }

  function Visible(s: Text): Text
    decreases |s|
  {
    if s == [] then [] else (if s[0].space then [] else [s[0]]) + Visible(s[1..])
  }

  /** Trimming takes white space only: what can be seen of the composed text stays, in order. */
  lemma {:induction false} NothingVisibleLost(raw: Text, compose: Text -> Text)
    ensures Visible(Normal(raw, compose)) == Visible(compose(Stripped(raw)))
  {
    var composed := compose(Stripped(raw));
    TidyKeepsVisible(composed);
    TrimKeepsVisible(Tidy(composed));
  }

  lemma {:induction false} TidyKeepsVisible(s: Text)
    ensures Visible(Tidy(s)) == Visible(s)
    decreases |s|
  {
    if s != [] {
      TidyKeepsVisible(s[1..]);
      assert ([s[0]] + Tidy(s[1..]))[1..] == Tidy(s[1..]);
    }
  }

  lemma {:induction false} TrimKeepsVisible(s: Text)
    ensures Visible(TrimEnd(s)) == Visible(s)
    decreases |s|
  {
    if s != [] && s[|s| - 1].space {
      TrimKeepsVisible(s[..|s| - 1]);
      VisibleSnoc(s[..|s| - 1], s[|s| - 1]);
      assert s == s[..|s| - 1] + [s[|s| - 1]];
    }
  }

  lemma {:induction false} VisibleSnoc(s: Text, c: Point)
    ensures Visible(s + [c]) == Visible(s) + if c.space then [] else [c]
    decreases |s|
  {
    var t := s + [c];
    if s == [] {
      assert t[0] == c && t[1..] == [];
    } else {
      assert t[0] == s[0] && t[1..] == s[1..] + [c];
      VisibleSnoc(s[1..], c);
    }
  }

  // --------------------------------------------------------------- the method

  lemma {:induction false} StrippedOn(raw: Text, i: nat)
    requires i < |raw|
    ensures Stripped(raw[i..]) == (if raw[i].code in REMOVED then [] else [raw[i]]) + Stripped(raw[i + 1..])
  {
    assert raw[i..][0] == raw[i] && raw[i..][1..] == raw[i + 1..];
  }

  method Strip(raw: Text) returns (stripped: Text)
    ensures stripped == Stripped(raw)
  {
    stripped := [];
    for i := 0 to |raw|
      invariant Stripped(raw) == stripped + Stripped(raw[i..])
    {
      StrippedOn(raw, i);
      if raw[i].code !in REMOVED {
        stripped := stripped + [raw[i]];
      }
    }
    assert raw[|raw|..] == [];
  }

  /** Line by line, each without its trailing white space. */
  method TidyLines(composed: Text) returns (out: Text)
    ensures out == Tidy(composed)
  {
    out := [];
    var left := composed;
    while true
      invariant Tidy(composed) == out + Tidy(left)
      decreases |left|
    {
      var k := LineLength(left);
      var line := left[..k];
      if k == |left| {
        assert line == left;
        TidyOneLine(left);
        return out + TrimEnd(line);
      }
      assert left == line + [left[k]] + left[k + 1..];
      TidyByLine(line, left[k], left[k + 1..]);
      out := out + TrimEnd(line) + [left[k]];
      left := left[k + 1..];
    }
  }

  /** Filter, compose, tidy the lines, and trim once more at the end. */
  method Normalized(raw: Text, compose: Text -> Text) returns (out: Text)
    ensures out == Normal(raw, compose)
  {
    var stripped := Strip(raw);
    out := TidyLines(compose(stripped));
    out := TrimEnd(out);
  }
}
