/**
 * The conservative token estimate of a prompt, whole and in increments, and the budgets built on it.
 * Text is a sequence of UTF-16 code units; a pair of surrogates is one character.
 */
module TokenEstimate {
  import opened Common

  type Text = seq<int>

  function CodePoint(high: int, low: int): int {
    0x10000 + (high - 0xD800) * 1024 + (low - 0xDC00)
  }

  // ---- character classes ----

  datatype Counts = Counts(word: nat, syntax: nat, other: nat, emoji: nat)

  const NONE := Counts(0, 0, 0, 0)

  function Plus(a: Counts, b: Counts): Counts {
    Counts(a.word + b.word, a.syntax + b.syntax, a.other + b.other, a.emoji + b.emoji)
  }

  predicate IsPromptWhitespace(c: int) {
    || 0x09 <= c <= 0x0d || c == 0x20 || c == 0x85 || c == 0xa0 || c == 0x1680 || 0x2000 <= c <= 0x200a
    || c == 0x2028 || c == 0x2029 || c == 0x202f || c == 0x205f || c == 0x3000 || c == 0xfeff
  }

  predicate IsPromptEmoji(c: int) {
    || 0x1f000 <= c <= 0x1faff || 0x1fc00 <= c <= 0x1fffd || 0x2300 <= c <= 0x23ff
    || 0x2600 <= c <= 0x27bf || 0x2b00 <= c <= 0x2bff
  }

  predicate IsWord(c: int) {
    0x30 <= c <= 0x39 || 0x41 <= c <= 0x5a || 0x61 <= c <= 0x7a || c == 0x5f
  }

  function Class(c: int): Counts {
    if IsPromptWhitespace(c) then NONE
    else if c <= 0x7f then (if IsWord(c) then Counts(1, 0, 0, 0) else Counts(0, 1, 0, 0))
    else if IsPromptEmoji(c) then Counts(0, 0, 0, 1)
    else Counts(0, 0, 1, 0)
  }

  predicate PairAt(s: Text) {
    |s| >= 2 && IsHigh(s[0]) && IsLow(s[1])
  }

  /** What iterating over the characters of a string counts. */
  function Count(s: Text): Counts {
    if s == [] then NONE
    else if PairAt(s) then Plus(Class(CodePoint(s[0], s[1])), Count(s[2..]))
    else Plus(Class(s[0]), Count(s[1..]))
  }

  lemma CountUnfold(s: Text)
    ensures s == [] ==> Count(s) == NONE
    ensures PairAt(s) ==> Count(s) == Plus(Class(CodePoint(s[0], s[1])), Count(s[2..]))
    ensures s != [] && !PairAt(s) ==> Count(s) == Plus(Class(s[0]), Count(s[1..]))
  {
    hide Class, CodePoint;
  }

  /** countPromptTokenClasses */
  method CountPromptTokenClasses(value: Text) returns (counts: Counts)
    ensures counts == Count(value)
  {
    hide Class, CodePoint, Count;
    counts := NONE;
    var i := 0;
    assert value[0..] == value;
    while i < |value|
      invariant i <= |value| && Count(value) == Plus(counts, Count(value[i..]))
    {
      ghost var rest := value[i..];
      CountUnfold(rest);
      if i + 1 < |value| && IsHigh(value[i]) && IsLow(value[i + 1]) {
        assert rest[2..] == value[i + 2..];
        counts := Plus(counts, Class(CodePoint(value[i], value[i + 1])));
        i := i + 2;
      } else {
        assert rest[1..] == value[i + 1..];
        counts := Plus(counts, Class(value[i]));
        i := i + 1;
      }
    }
    CountUnfold(value[i..]);
  }

  function Tokens(c: Counts): nat {
    CeilDiv(c.word, 4) + CeilDiv(c.syntax, 2) + c.other + c.emoji * 2
  }

  /** estimatePromptTokens */
  function Estimate(s: Text): nat {
    Tokens(Count(s))
  }

  // ---- concatenation ----

  predicate SplitsPair(a: Text, b: Text) {
    a != [] && b != [] && IsHigh(a[|a| - 1]) && IsLow(b[0])
  }

  lemma PlusAssociates(a: Counts, b: Counts, c: Counts)
    ensures Plus(Plus(a, b), c) == Plus(a, Plus(b, c)) && Plus(NONE, a) == a == Plus(a, NONE)
  {}

  /** Counting is additive where the cut does not fall inside a surrogate pair. */
  lemma {:induction false} CountConcat(a: Text, b: Text)
    requires !SplitsPair(a, b)
    ensures Count(a + b) == Plus(Count(a), Count(b))
    decreases |a|
  {
    hide Class, CodePoint, Count;
    var s := a + b;
    CountUnfold(a);
    CountUnfold(s);
    if a == [] {
      assert s == b;
    } else if PairAt(a) {
      assert s[2..] == a[2..] + b;
      CountConcat(a[2..], b);
    } else {
      assert s[1..] == a[1..] + b;
      assert PairAt(s) ==> |a| == 1 && SplitsPair(a, b);
      CountConcat(a[1..], b);
    }
  }

  lemma CeilAdds(a: nat, b: nat, d: nat)
    requires d == 2 || d == 4
    ensures CeilDiv(a + b, d) <= CeilDiv(a, d) + CeilDiv(b, d)
  {}

  lemma TokensAdd(a: Counts, b: Counts)
    ensures Tokens(Plus(a, b)) <= Tokens(a) + Tokens(b)
  {
    hide CeilDiv;
    CeilAdds(a.word, b.word, 4);
    CeilAdds(a.syntax, b.syntax, 2);
  }

  lemma SurrogateIsOther(c: int)
    requires IsHigh(c) || IsLow(c)
    ensures Class(c) == Counts(0, 0, 1, 0)
  {}

  lemma NewlineIsFree()
    ensures Class(10) == NONE
  {}

  lemma {:induction false} NewlineThen(s: Text)
    requires s != [] && s[0] == 10
    ensures Count(s) == Count(s[1..])
  {
    hide Class, CodePoint, Count;
    CountUnfold(s);
    NewlineIsFree();
    assert !PairAt(s);
  }

  /** A blank line between parts costs nothing. */
  lemma BlankLineIsFree()
    ensures Estimate([10, 10]) == 0 && Estimate([]) == 0
  {
    hide Count;
    NewlineThen([10, 10]);
    NewlineThen([10]);
    CountUnfold([]);
    assert [10, 10][1..] == [10] && [10][1..] == [];
  }

  lemma PairIsAtMostTwo(high: int, low: int)
    requires IsHigh(high) && IsLow(low)
    ensures Class(CodePoint(high, low)) == Counts(0, 0, 0, 1) || Class(CodePoint(high, low)) == Counts(0, 0, 1, 0)
  {
    assert CodePoint(high, low) >= 0x10000;
  }

  lemma CountOne(c: int)
    ensures Count([c]) == Class(c)
  {
    hide Class;
    assert [c][1..] == [];
  }

  lemma CountPair(high: int, low: int)
    requires IsHigh(high) && IsLow(low)
    ensures Count([high, low]) == Class(CodePoint(high, low))
  {
    hide Class, CodePoint;
    assert [high, low][2..] == [];
  }

  lemma TokensOf(c: Counts, n: nat)
    ensures Tokens(Plus(c, Counts(0, 0, n, 0))) == Tokens(c) + n
    ensures Tokens(Plus(c, Counts(0, 0, 0, n))) == Tokens(c) + 2 * n
    ensures Tokens(Plus(Counts(0, 0, n, 0), c)) == Tokens(c) + n
  {
    hide CeilDiv;
  }

  /** The estimate of a whole never exceeds the estimates of its parts, wherever it is cut. */
  lemma EstimateIsSubadditive(a: Text, b: Text)
    ensures Estimate(a + b) <= Estimate(a) + Estimate(b)
  {
    hide Class, CodePoint, Tokens, Count;
    if !SplitsPair(a, b) {
      CountConcat(a, b);
      TokensAdd(Count(a), Count(b));
    } else {
      var a0, h, l, b0 := a[..|a| - 1], a[|a| - 1], b[0], b[1..];
      var u, v := Count(a0), Count(b0);
      assert a == a0 + [h] && b == [l] + b0 && a + b == a0 + ([h, l] + b0);
      CountConcat(a0, [h]);
      CountConcat([l], b0);
      CountConcat([h, l], b0);
      CountConcat(a0, [h, l] + b0);
      CountOne(h);
      CountOne(l);
      CountPair(h, l);
      SurrogateIsOther(h);
      SurrogateIsOther(l);
      PairIsAtMostTwo(h, l);
      var p := Class(CodePoint(h, l));
      PlusAssociates(u, p, v);
      TokensAdd(Plus(u, p), v);
      TokensOf(u, 1);
      TokensOf(v, 1);
    }
  }

  // ---- the incremental estimate ----

  const MAX_METRIC_TOKENS := 1_000_000_000

  function Capped(n: nat): nat {
    if n <= MAX_METRIC_TOKENS then n else MAX_METRIC_TOKENS
  }

  /** All but a trailing high surrogate. */
  function Settled(s: Text): Text {
    if s != [] && IsHigh(s[|s| - 1]) then s[..|s| - 1] else s
  }

  function Held(s: Text): Text {
    if s != [] && IsHigh(s[|s| - 1]) then [s[|s| - 1]] else []
  }

  /** A trailing high surrogate is charged one token. */
  lemma HeldIsOneToken(s: Text)
    ensures Estimate(s) == Tokens(Count(Settled(s))) + |Held(s)|
  {
    hide Class, Count, Tokens;
    if Held(s) != [] {
      var h := s[|s| - 1];
      assert s == Settled(s) + [h];
      CountConcat(Settled(s), [h]);
      CountOne(h);
      SurrogateIsOther(h);
      TokensOf(Count(Settled(s)), 1);
    }
  }

  /** One more chunk: what was held back is put in front of it. */
  lemma ChunkSettles(s: Text, chunk: Text)
    requires chunk != []
    ensures var input := Held(s) + chunk;
            Held(s + chunk) == Held(input) && Count(Settled(s + chunk)) == Plus(Count(Settled(s)), Count(Settled(input)))
  {
    hide Count;
    var input := Held(s) + chunk;
    assert s == Settled(s) + Held(s);
    assert s + chunk == Settled(s) + input;
    assert input[|input| - 1] == chunk[|chunk| - 1] == (s + chunk)[|s + chunk| - 1];
    assert Settled(s + chunk) == Settled(s) + Settled(input);
    CountConcat(Settled(s), Settled(input));
  }

  class IncrementalTokenEstimate {
    var asciiWordCharacters: nat
    var asciiSyntaxCharacters: nat
    var nonAsciiCharacters: nat
    var emojiCharacters: nat
    var pendingHighSurrogate: Text
    /** Everything added so far. */
    ghost var text: Text

    ghost predicate Valid()
      reads this
    {
      && Counts(asciiWordCharacters, asciiSyntaxCharacters, nonAsciiCharacters, emojiCharacters) == Count(Settled(text))
      && pendingHighSurrogate == Held(text)
    }

    constructor ()
      ensures Valid() && text == []
    {
      asciiWordCharacters, asciiSyntaxCharacters, nonAsciiCharacters, emojiCharacters := 0, 0, 0, 0;
      pendingHighSurrogate, text := [], [];
    }

    method Add(value: Text)
      requires Valid()
      modifies this
      ensures Valid() && text == old(text) + value
    {
      hide Count;
      if value == [] {
        return;
      }
      ChunkSettles(text, value);
      var input := pendingHighSurrogate + value;
      pendingHighSurrogate := [];
      var last := input[|input| - 1];
      if IsHigh(last) {
        pendingHighSurrogate := [last];
        input := input[..|input| - 1];
      }
      var counts := CountPromptTokenClasses(input);
      asciiWordCharacters := asciiWordCharacters + counts.word;
      asciiSyntaxCharacters := asciiSyntaxCharacters + counts.syntax;
      nonAsciiCharacters := nonAsciiCharacters + counts.other;
      emojiCharacters := emojiCharacters + counts.emoji;
      text := text + value;
    }

    /** However the text was split, the value is the capped estimate of the whole. */
    method Value() returns (tokens: nat)
      requires Valid()
      ensures tokens == Capped(Estimate(text))
    {
      hide Count, Tokens;
      HeldIsOneToken(text);
      var counts := Counts(asciiWordCharacters, asciiSyntaxCharacters, nonAsciiCharacters, emojiCharacters);
      var trailing := if pendingHighSurrogate != [] then 1 else 0;
      return Capped(Tokens(counts) + trailing);
    }
  }

  function Concat(chunks: seq<Text>): Text {
    if chunks == [] then [] else Concat(chunks[..|chunks| - 1]) + chunks[|chunks| - 1]
  }

  /** Feeding the chunks of a text one by one gives the capped estimate of the whole text. */
  method EstimateChunks(chunks: seq<Text>) returns (tokens: nat)
    ensures tokens == Capped(Estimate(Concat(chunks)))
  {
    hide Count;
    var estimate := new IncrementalTokenEstimate();
    for i := 0 to |chunks|
      invariant estimate.Valid() && estimate.text == Concat(chunks[..i])
    {
      assert chunks[..i + 1][..i] == chunks[..i];
      estimate.Add(chunks[i]);
    }
    assert chunks[..|chunks|] == chunks;
    tokens := estimate.Value();
  }
}
