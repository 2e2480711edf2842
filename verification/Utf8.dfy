/** UTF-8 text of bounded size: the newest suffix that fits, cut between code points. */
module Utf8 {
  import opened Common

  const BOM: char := '\U{FEFF}'

  function Width(c: char): (w: nat)
    ensures 1 <= w <= 4
  {
    if c as int < 0x80 then 1 else if c as int < 0x800 then 2 else if c as int < 0x10000 then 3 else 4
  }

  /** utf8Bytes */
  function Bytes(s: string): nat {
    if s == [] then 0 else Width(s[0]) + Bytes(s[1..])
  }

  function EncodeChar(c: char): (b: seq<int>)
    ensures |b| == Width(c)
  {
    var n := c as int;
    if n < 0x80 then [n]
    else if n < 0x800 then [192 + n / 64, 128 + n % 64]
    else if n < 0x10000 then [224 + n / 4096, 128 + n / 64 % 64, 128 + n % 64]
    else [240 + n / 262144, 128 + n / 4096 % 64, 128 + n / 64 % 64, 128 + n % 64]
  }

  function Encode(s: string): (b: seq<int>)
    ensures |b| == Bytes(s)
  {
    if s == [] then [] else EncodeChar(s[0]) + Encode(s[1..])
  }

  /** (byte & 0xc0) === 0x80 */
  predicate Continues(b: int) {
    128 <= b < 192
  }

  function ToChar(n: int): char {
    if 0 <= n < 0xD800 || 0xE000 <= n < 0x110000 then n as char else '\U{FFFD}'
  }

  /** The code points of well-formed bytes. */
  function Decode(b: seq<int>): string {
    if b == [] then []
    else if b[0] < 192 || |b| < 2 then [ToChar(b[0])] + Decode(b[1..])
    else if b[0] < 224 || |b| < 3 then [ToChar((b[0] - 192) * 64 + b[1] - 128)] + Decode(b[2..])
    else if b[0] < 240 || |b| < 4 then [ToChar((b[0] - 224) * 4096 + (b[1] - 128) * 64 + b[2] - 128)] + Decode(b[3..])
    else [ToChar((b[0] - 240) * 262144 + (b[1] - 128) * 4096 + (b[2] - 128) * 64 + b[3] - 128)] + Decode(b[4..])
  }

  lemma Base64(n: nat)
    requires n < 0x110000
    ensures n == n / 64 * 64 + n % 64
    ensures n / 64 == n / 4096 * 64 + n / 64 % 64
    ensures n / 4096 == n / 262144 * 64 + n / 4096 % 64
  {
    assert n / 64 / 64 == n / 4096 && n / 4096 / 64 == n / 262144;
  }

  lemma DecodeChar(c: char, rest: seq<int>)
    ensures Decode(EncodeChar(c) + rest) == [c] + Decode(rest)
  {
    var n := c as int;
    Base64(n);
    var b := EncodeChar(c) + rest;
    assert b[|EncodeChar(c)|..] == rest;
    assert ToChar(n) == c;
  }

  lemma {:induction false} DecodeEncoded(s: string)
    ensures Decode(Encode(s)) == s
  {
    if s != [] {
      DecodeEncoded(s[1..]);
      DecodeChar(s[0], Encode(s[1..]));
      assert s == [s[0]] + s[1..];
    }
  }

  /** Only the first byte of a code point is not a continuation byte. */
  lemma LeadByte(c: char)
    ensures !Continues(EncodeChar(c)[0])
    ensures forall i :: 0 < i < Width(c) ==> Continues(EncodeChar(c)[i])
  {}

  // ---- the longest suffix that fits ----

  function LongestSuffix(s: string, max: nat): (r: string)
    ensures Bytes(r) <= max && |r| <= |s| && r == s[|s| - |r|..]
  {
    if Bytes(s) <= max then s else LongestSuffix(s[1..], max)
  }

  /** A text decoder drops one leading byte order mark. */
  function DropBom(s: string): string {
    if s != [] && s[0] == BOM then s[1..] else s
  }

  /** boundedUtf8Suffix: the whole text if it fits, else its longest fitting suffix without a leading mark. */
  function BoundedSuffix(s: string, max: int): (r: string)
    ensures Bytes(r) <= Max(0, max)
    ensures |r| <= |s| && r == s[|s| - |r|..]
  {
    if max <= 0 then [] else if Bytes(s) <= max then s else DropBom(LongestSuffix(s, max))
  }

  lemma {:induction false} SuffixBytes(s: string, k: nat)
    requires k <= |s|
    ensures Bytes(s[k..]) <= Bytes(s) && (k > 0 ==> Bytes(s[k..]) < Bytes(s))
  {
    if k > 0 {
      assert s[k..] == s[1..][k - 1..];
      SuffixBytes(s[1..], k - 1);
    }
  }

  /** No longer suffix of the text fits. */
  lemma {:induction false} LongestIsMaximal(s: string, max: nat, k: nat)
    requires k <= |s| && Bytes(s[k..]) <= max
    ensures |s| - k <= |LongestSuffix(s, max)|
    decreases |s|
  {
    if Bytes(s) > max {
      assert k > 0 && s[k..] == s[1..][k - 1..];
      LongestIsMaximal(s[1..], max, k - 1);
    }
  }

  predicate Maximal(s: string, r: string, max: int) {
    forall k :: 0 <= k <= |s| && Bytes(s[k..]) <= Max(0, max) ==> |s| - k <= |r|
  }

  /** The cut lands just before a byte order mark. */
  predicate CutAtMark(s: string, max: int) {
    max > 0 && Bytes(s) > max && var r := LongestSuffix(s, max); r != [] && r[0] == BOM
  }

  lemma EmptyOnly(s: string, k: nat)
    requires k <= |s| && Bytes(s[k..]) == 0
    ensures k == |s|
  {}

  /** The result is the longest fitting suffix exactly unless the cut lands before a byte order mark. */
  lemma MaximalUnlessMark(s: string, max: int)
    ensures Maximal(s, BoundedSuffix(s, max), max) <==> !CutAtMark(s, max)
  {
    hide LongestSuffix;
    var r := BoundedSuffix(s, max);
    if max <= 0 {
      forall k | 0 <= k <= |s| && Bytes(s[k..]) <= 0 ensures |s| - k <= |r| { EmptyOnly(s, k); }
    } else if Bytes(s) > max {
      var l := LongestSuffix(s, max);
      forall k | 0 <= k <= |s| && Bytes(s[k..]) <= max ensures |s| - k <= |l| { LongestIsMaximal(s, max, k); }
      if CutAtMark(s, max) {
        var k := |s| - |l|;
        assert s[k..] == l && |r| < |l|;
      }
    } else {
      assert r == s;
    }
  }

  // ---- the byte loop ----

  /** start is where the encoding of s[k..] begins. */
  ghost predicate Boundary(s: string, b: seq<int>, k: nat, start: nat) {
    k <= |s| && start <= |b| && b[start..] == Encode(s[k..])
  }

  lemma NextBoundary(s: string, b: seq<int>, k: nat, start: nat)
    requires Boundary(s, b, k, start) && k < |s|
    ensures start + Width(s[k]) <= |b| && Boundary(s, b, k + 1, start + Width(s[k]))
    ensures !Continues(b[start]) && forall i :: start < i < start + Width(s[k]) ==> Continues(b[i])
  {
    var c := s[k];
    var e := EncodeChar(c);
    LeadByte(c);
    hide EncodeChar, Continues;
    var tail := s[k..];
    assert tail[0] == c && tail[1..] == s[k + 1..];
    assert b[start..] == e + Encode(s[k + 1..]);
    assert b[start + |e|..] == b[start..][|e|..] == Encode(s[k + 1..]);
    forall i | start <= i < start + |e| ensures b[i] == e[i - start] {
      assert b[start..][i - start] == e[i - start];
    }
  }

  /** Encode(s) starts with w bytes of the first character, then the encoding of the rest. */
  lemma FirstChar(s: string, b: seq<int>)
    requires s != [] && b == Encode(s)
    ensures var w := Width(s[0]);
            w <= |b| && b[w..] == Encode(s[1..]) && !Continues(b[0]) && (forall i :: 0 < i < w ==> Continues(b[i]))
            && (w < |b| ==> !Continues(b[w]))
  {
    hide Continues, EncodeChar;
    assert s[0..] == s && b[0..] == b;
    NextBoundary(s, b, 0, 0);
    assert s[1..] == s[0 + 1..];
    LeadsNext(s[1..], b[Width(s[0])..], b, Width(s[0]));
  }

  /** The text after the first boundary at or past the byte limit is the longest fitting suffix. */
  lemma {:induction false} FirstBoundary(s: string, b: seq<int>, max: nat, start: nat)
    requires b == Encode(s) && |b| - max <= start <= |b| && max < |b|
    requires forall i :: |b| - max <= i < start ==> Continues(b[i])
    requires start < |b| ==> !Continues(b[start])
    ensures b[start..] == Encode(LongestSuffix(s, max))
    decreases |s|
  {
    hide Continues, EncodeChar, Encode, LongestSuffix;
    assert s != [] by { EmptyBytes(); }
    FirstChar(s, b);
    var w := Width(s[0]);
    var rest := b[w..];
    if |rest| <= max {
      LongestOfNext(s, max);
      assert start == w;
    } else {
      LongestOfRest(s, max);
      assert w <= start;
      forall i | |rest| - max <= i < start - w ensures Continues(rest[i]) {
        assert rest[i] == b[i + w];
      }
      assert start < |b| ==> rest[start - w] == b[start];
      FirstBoundary(s[1..], rest, max, start - w);
      assert b[start..] == rest[start - w..];
    }
  }

  lemma EmptyBytes()
    ensures Encode([]) == []
  {}

  lemma LongestOfRest(s: string, max: nat)
    requires s != [] && Bytes(s[1..]) > max
    ensures LongestSuffix(s, max) == LongestSuffix(s[1..], max)
  {}

  lemma LongestOfNext(s: string, max: nat)
    requires s != [] && Bytes(s) > max >= Bytes(s[1..])
    ensures LongestSuffix(s, max) == s[1..]
  {}

  lemma LeadsNext(t: string, rest: seq<int>, b: seq<int>, w: nat)
    requires rest == Encode(t) && w <= |b| && rest == b[w..]
    ensures w < |b| ==> !Continues(b[w])
  {
    if w < |b| {
      LeadByte(t[0]);
      assert b[w] == rest[0] == EncodeChar(t[0])[0];
    }
  }

  method BoundedUtf8Suffix(value: string, maxBytes: int) returns (r: string)
    ensures r == BoundedSuffix(value, maxBytes)
  {
    hide Continues, Encode, LongestSuffix, Decode;
    if maxBytes <= 0 || value == [] {
      return [];
    }
    var encoded := Encode(value);
    if |encoded| <= maxBytes {
      return value;
    }
    var start := |encoded| - maxBytes;
    while start < |encoded| && Continues(encoded[start])
      invariant |encoded| - maxBytes <= start <= |encoded|
      invariant forall i :: |encoded| - maxBytes <= i < start ==> Continues(encoded[i])
    {
      start := start + 1;
    }
    FirstBoundary(value, encoded, maxBytes, start);
    DecodeEncoded(LongestSuffix(value, maxBytes));
    return DropBom(Decode(encoded[start..]));
  }
}
