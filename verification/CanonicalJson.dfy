/**
 * The meaning of JSON text (sections 4 to 7 of RFC 8259) and its canonical printing.
 * A reader consumes a text from the front and returns the value and what is left.
 */
module CanonicalJson {
  import opened Common
  import opened Decimals

  /** A JSON value; an object is the list of its members in strictly ascending key order. */
  datatype Json =
    | Null
    | Bool(truth: bool)
    | Num(number: Decimal)
    | Str(text: Text)
    | Arr(items: seq<Json>)
    | Obj(members: seq<Member<Json>>)

  datatype Member<V> = Member(key: Text, value: V)

  datatype Read = Read(value: Json, rest: Text)

  const QUOTE: Unit := 34
  const BACKSLASH: Unit := 92
  const COMMA: Unit := 44
  const COLON: Unit := 58
  const OPEN_BRACKET: Unit := 91
  const CLOSE_BRACKET: Unit := 93
  const OPEN_BRACE: Unit := 123
  const CLOSE_BRACE: Unit := 125
  const LOWER_U: Unit := 117

  const TRUE: Text := [116, 114, 117, 101]
  const FALSE: Text := [102, 97, 108, 115, 101]
  const NULL: Text := [110, 117, 108, 108]

  const MAX_DEPTH := 128

  // ---- whitespace ----

  predicate IsSpace(c: Unit) {
    || 9 <= c <= 13 || c == 32 || c == 160 || c == 5760 || 8192 <= c <= 8202
    || c == 8232 || c == 8233 || c == 8239 || c == 8287 || c == 12288 || c == 65279
  }

  function SkipSpace(s: Text): (r: Text)
    ensures |r| <= |s| && (r != [] ==> !IsSpace(r[0]))
    ensures s != [] && !IsSpace(s[0]) ==> r == s
  {
    if s != [] && IsSpace(s[0]) then SkipSpace(s[1..]) else s
  }

  /** The first unit after whitespace is c, and here is what follows it. */
  function Expect(s: Text, c: Unit): (r: Option<Text>)
    ensures r.Some? ==> |r.value| < |s|
    ensures s != [] && s[0] == c && !IsSpace(c) ==> r == Some(s[1..])
  {
    var t := SkipSpace(s);
    if t != [] && t[0] == c then Some(t[1..]) else None
  }

  predicate StartsWith(s: Text, prefix: Text) {
    prefix <= s
  }

  // ---- strings ----

  /** Where the closing quote stands in the units after the opening one. */
  function ClosingQuote(s: Text, escaped: bool): (r: Option<nat>)
    ensures r.Some? ==> r.value < |s| && s[r.value] == QUOTE
  {
    if s == [] then None
    else if !escaped && s[0] == QUOTE then Some(0)
    else
      var r := ClosingQuote(s[1..], !escaped && s[0] == BACKSLASH);
      if r.None? then None else Some(r.value + 1)
  }

  function HexValue(c: Unit): Option<nat> {
    if 48 <= c <= 57 then Some(c - 48)
    else if 97 <= c <= 102 then Some(c - 87)
    else if 65 <= c <= 70 then Some(c - 55)
    else None
  }

  /** The unit that a one-letter escape stands for. */
  function ShortEscape(c: Unit): Option<Unit> {
    if c == QUOTE || c == BACKSLASH || c == 47 then Some(c)
    else if c == 98 then Some(8)
    else if c == 102 then Some(12)
    else if c == 110 then Some(10)
    else if c == 114 then Some(13)
    else if c == 116 then Some(9)
    else None
  }

  /** The unit at the head of a string body and how many units spell it. */
  function DecodeUnit(s: Text): (r: Option<(Unit, nat)>)
    requires s != []
    ensures r.Some? ==> 0 < r.value.1 <= |s|
  {
    if s[0] == QUOTE || 0 <= s[0] < 32 then None
    else if s[0] != BACKSLASH then Some((s[0], 1))
    else if |s| < 2 then None
    else if ShortEscape(s[1]).Some? then Some((ShortEscape(s[1]).value, 2))
    else if s[1] != LOWER_U || |s| < 6 then None
    else
      var a, b, c, d := HexValue(s[2]), HexValue(s[3]), HexValue(s[4]), HexValue(s[5]);
      if a.None? || b.None? || c.None? || d.None? then None
      else Some((4096 * a.value + 256 * b.value + 16 * c.value + d.value, 6))
  }

  function Decode(body: Text): Option<Text>
    decreases |body|
  {
    if body == [] then Some([])
    else
      var head := DecodeUnit(body);
      if head.None? then None
      else
        var tail := Decode(body[head.value.1..]);
        if tail.None? then None else Some([head.value.0] + tail.value)
  }

  datatype ReadText = ReadText(text: Text, rest: Text)

  /** A string literal at the very head of s. */
  function ReadString(s: Text): (r: Option<ReadText>)
    ensures r.Some? ==> |r.value.rest| < |s|
  {
    if s == [] || s[0] != QUOTE then None
    else
      var end := ClosingQuote(s[1..], false);
      if end.None? then None
      else
        var text := Decode(s[1..][..end.value]);
        if text.None? then None else Some(ReadText(text.value, s[1..][end.value + 1..]))
  }

  // ---- key order ----

  predicate Less(a: Text, b: Text) {
    if b == [] then false
    else if a == [] then true
    else a[0] < b[0] || (a[0] == b[0] && Less(a[1..], b[1..]))
  }

  predicate Ascending<V>(ms: seq<Member<V>>) {
    forall i, j :: 0 <= i < j < |ms| ==> Less(ms[i].key, ms[j].key)
  }

  /** ms with the value at key k set, keeping the order. */
  function Put<V>(ms: seq<Member<V>>, k: Text, v: V): seq<Member<V>> {
    if ms == [] || Less(k, ms[0].key) then [Member(k, v)] + ms
    else if ms[0].key == k then [Member(k, v)] + ms[1..]
    else [ms[0]] + Put(ms[1..], k, v)
  }

  // ---- values ----

  function ReadValue(s: Text, depth: nat): (r: Option<Read>)
    ensures r.Some? ==> |r.value.rest| < |s|
    decreases |s|, 0
  {
    if depth > MAX_DEPTH then None
    else
      var t := SkipSpace(s);
      if t == [] then None
      else if t[0] == QUOTE then
        var str := ReadString(t);
        if str.None? then None else Some(Read(Str(str.value.text), str.value.rest))
      else if t[0] == OPEN_BRACKET then
        var end := Expect(t[1..], CLOSE_BRACKET);
        if end.Some? then Some(Read(Arr([]), end.value)) else ReadElements(t[1..], depth, [])
      else if t[0] == OPEN_BRACE then
        var end := Expect(t[1..], CLOSE_BRACE);
        if end.Some? then Some(Read(Obj([]), end.value)) else ReadMembers(t[1..], depth, [])
      else ReadScalar(t)
  }

  function ReadScalar(t: Text): (r: Option<Read>)
    ensures r.Some? ==> |r.value.rest| < |t|
  {
    if StartsWith(t, TRUE) then Some(Read(Bool(true), t[|TRUE|..]))
    else if StartsWith(t, FALSE) then Some(Read(Bool(false), t[|FALSE|..]))
    else if StartsWith(t, NULL) then Some(Read(Null, t[|NULL|..]))
    else
      var scan := ScanNumber(t);
      if scan.None? then None else Some(Read(Num(NormalForm(TokenValue(scan.value.token))), scan.value.rest))
  }

  function ReadElements(s: Text, depth: nat, items: seq<Json>): (r: Option<Read>)
    ensures r.Some? ==> |r.value.rest| < |s|
    decreases |s|, 1
  {
    var item := ReadValue(s, depth + 1);
    if item.None? then None
    else
      var all := items + [item.value.value];
      var end := Expect(item.value.rest, CLOSE_BRACKET);
      if end.Some? then Some(Read(Arr(all), end.value))
      else
        var more := Expect(item.value.rest, COMMA);
        if more.None? then None else ReadElements(more.value, depth, all)
  }

  function ReadMembers(s: Text, depth: nat, members: seq<Member<Json>>): (r: Option<Read>)
    ensures r.Some? ==> |r.value.rest| < |s|
    decreases |s|, 1
  {
    var key := ReadString(SkipSpace(s));
    if key.None? then None
    else
      var colon := Expect(key.value.rest, COLON);
      if colon.None? then None
      else
        var value := ReadValue(colon.value, depth + 1);
        if value.None? then None
        else
          var all := Put(members, key.value.text, value.value.value);
          var end := Expect(value.value.rest, CLOSE_BRACE);
          if end.Some? then Some(Read(Obj(all), end.value))
          else
            var more := Expect(value.value.rest, COMMA);
            if more.None? then None else ReadMembers(more.value, depth, all)
  }

  /** The value a whole text denotes. */
  function Meaning(text: Text): Option<Json> {
    var r := ReadValue(text, 0);
    if r.Some? && SkipSpace(r.value.rest) == [] then Some(r.value.value) else None
  }

  // ---- printing ----

  function HexDigit(n: nat): Unit
    requires n < 16
  {
    if n < 10 then 48 + n else 87 + n
  }

  /** JSON.stringify's spelling of one unit standing alone. */
  function QuoteUnit(c: Unit): Text {
    if c == QUOTE || c == BACKSLASH then [BACKSLASH, c]
    else if c == 8 then [BACKSLASH, 98]
    else if c == 12 then [BACKSLASH, 102]
    else if c == 10 then [BACKSLASH, 110]
    else if c == 13 then [BACKSLASH, 114]
    else if c == 9 then [BACKSLASH, 116]
    else if 0 <= c < 32 || IsHigh(c) || IsLow(c) then
      [BACKSLASH, LOWER_U, HexDigit(c / 4096), HexDigit(c / 256 % 16), HexDigit(c / 16 % 16), HexDigit(c % 16)]
    else [c]
  }

  function QuoteBody(s: Text): Text {
    if s == [] then []
    else if |s| >= 2 && IsHigh(s[0]) && IsLow(s[1]) then [s[0], s[1]] + QuoteBody(s[2..])
    else QuoteUnit(s[0]) + QuoteBody(s[1..])
  }

  function Quote(s: Text): Text {
    [QUOTE] + QuoteBody(s) + [QUOTE]
  }

  function Print(v: Json): Text
    decreases v, 0
  {
    match v
    case Null => NULL
    case Bool(b) => if b then TRUE else FALSE
    case Num(d) => DecimalText(d)
    case Str(s) => Quote(s)
    case Arr(items) => [OPEN_BRACKET] + PrintItems(items) + [CLOSE_BRACKET]
    case Obj(members) => [OPEN_BRACE] + PrintMembers(members) + [CLOSE_BRACE]
  }

  function PrintItems(items: seq<Json>): Text
    decreases items, 1
  {
    if items == [] then []
    else Print(items[0]) + if |items| == 1 then [] else [COMMA] + PrintItems(items[1..])
  }

  function PrintMembers(members: seq<Member<Json>>): Text
    decreases members, 1
  {
    if members == [] then []
    else
      Quote(members[0].key) + [COLON] + Print(members[0].value)
      + if |members| == 1 then [] else [COMMA] + PrintMembers(members[1..])
  }

  // ---- reading back what was printed: strings ----

  lemma HexDigitReads(n: nat)
    requires n < 16
    ensures HexValue(HexDigit(n)) == Some(n)
  {}

  lemma HexDigitsOf(c: nat)
    requires c < 0x10000
    ensures c / 4096 < 16
    ensures 4096 * (c / 4096) + 256 * (c / 256 % 16) + 16 * (c / 16 % 16) + c % 16 == c
  {}

  lemma DecodeUnitOfQuoted(c: Unit, tail: Text)
    ensures var q := QuoteUnit(c);
            q != [] && DecodeUnit(q + tail) == Some((c, |q|)) && (q + tail)[|q|..] == tail
  {
    var q := QuoteUnit(c);
    if |q| == 6 {
      HexDigitsOf(c);
      hide HexValue, HexDigit;
      HexDigitReads(c / 4096);
      HexDigitReads(c / 256 % 16);
      HexDigitReads(c / 16 % 16);
      HexDigitReads(c % 16);
      assert (q + tail)[..6] == q;
    }
  }

  /** One unit decoded in front of a body that decodes. */
  lemma DecodeFirst(spelling: Text, c: Unit, body: Text, s: Text)
    requires spelling != [] && DecodeUnit(spelling + body) == Some((c, |spelling|)) && Decode(body) == Some(s)
    ensures Decode(spelling + body) == Some([c] + s)
  {
    hide DecodeUnit;
    assert (spelling + body)[|spelling|..] == body;
  }

  lemma PlainUnit(c: Unit, tail: Text)
    requires c != QUOTE && c != BACKSLASH && !(0 <= c < 32)
    ensures DecodeUnit([c] + tail) == Some((c, 1))
  {}

  predicate StartsWithPair(s: Text) {
    |s| >= 2 && IsHigh(s[0]) && IsLow(s[1])
  }

  lemma QuoteFirst(s: Text)
    ensures s == [] ==> QuoteBody(s) == []
    ensures StartsWithPair(s) ==> QuoteBody(s) == [s[0], s[1]] + QuoteBody(s[2..])
    ensures s != [] && !StartsWithPair(s) ==> QuoteBody(s) == QuoteUnit(s[0]) + QuoteBody(s[1..])
  {
    hide QuoteUnit;
  }

  lemma DecodePair(high: Unit, low: Unit, body: Text, s: Text)
    requires IsHigh(high) && IsLow(low) && Decode(body) == Some(s)
    ensures Decode([high, low] + body) == Some([high, low] + s)
  {
    hide Decode, DecodeUnit;
    PlainUnit(low, body);
    DecodeFirst([low], low, body, s);
    PlainUnit(high, [low] + body);
    DecodeFirst([high], high, [low] + body, [low] + s);
    assert [high] + ([low] + body) == [high, low] + body && [high] + ([low] + s) == [high, low] + s;
  }

  lemma {:induction false} DecodeQuoted(s: Text)
    ensures Decode(QuoteBody(s)) == Some(s)
  {
    hide QuoteBody, QuoteUnit, DecodeUnit;
    QuoteFirst(s);
    if s == [] {
    } else {
      hide Decode;
      if StartsWithPair(s) {
        DecodeQuoted(s[2..]);
        DecodePair(s[0], s[1], QuoteBody(s[2..]), s[2..]);
        assert s == [s[0], s[1]] + s[2..];
      } else {
        DecodeQuoted(s[1..]);
        DecodeUnitOfQuoted(s[0], QuoteBody(s[1..]));
        DecodeFirst(QuoteUnit(s[0]), s[0], QuoteBody(s[1..]), s[1..]);
        assert s == [s[0]] + s[1..];
      }
    }
  }

  function After(n: nat, r: Option<nat>): Option<nat> {
    if r.None? then None else Some(n + r.value)
  }

  lemma ClosingAfterUnit(c: Unit, tail: Text)
    ensures ClosingQuote(QuoteUnit(c) + tail, false) == After(|QuoteUnit(c)|, ClosingQuote(tail, false))
  {
    hide ClosingQuote;
    var q := QuoteUnit(c);
    if |q| == 1 {
      PlainUnits(q, tail);
    } else {
      EscapeShape(c);
      hide QuoteUnit;
      assert q == [BACKSLASH, q[1]] + q[2..];
      PlainUnits(q[2..], tail);
      EscapedPair(q[1], q[2..] + tail);
      Associate([BACKSLASH, q[1]], q[2..], tail);
    }
  }

  lemma EscapeShape(c: Unit)
    requires |QuoteUnit(c)| > 1
    ensures var q := QuoteUnit(c);
            q[0] == BACKSLASH && forall i :: 2 <= i < |q| ==> q[i] != QUOTE && q[i] != BACKSLASH
  {
    HexDigitsOf(if |QuoteUnit(c)| == 6 then c else 0);
  }

  lemma EscapedPair(c: Unit, tail: Text)
    ensures ClosingQuote([BACKSLASH, c] + tail, false) == After(2, ClosingQuote(tail, false))
  {
    assert ([BACKSLASH, c] + tail)[1..][1..] == tail;
  }

  /** Units that neither quote nor escape do not move the closing quote. */
  lemma {:induction false} PlainUnits(plain: Text, tail: Text)
    requires forall i :: 0 <= i < |plain| ==> plain[i] != QUOTE && plain[i] != BACKSLASH
    ensures ClosingQuote(plain + tail, false) == After(|plain|, ClosingQuote(tail, false))
  {
    if plain == [] {
      assert plain + tail == tail;
    } else {
      PlainUnits(plain[1..], tail);
      assert (plain + tail)[1..] == plain[1..] + tail;
    }
  }

  lemma Associate(a: Text, b: Text, c: Text)
    ensures (a + b) + c == a + (b + c)
  {}

  lemma ClosingAfterParts(a: Text, b: Text, tail: Text)
    requires ClosingQuote(a + (b + tail), false) == After(|a|, ClosingQuote(b + tail, false))
    requires ClosingQuote(b + tail, false) == After(|b|, ClosingQuote(tail, false))
    ensures ClosingQuote(a + b + tail, false) == After(|a + b|, ClosingQuote(tail, false))
  {
    hide ClosingQuote;
    Associate(a, b, tail);
  }

  lemma {:induction false} ClosingAfterBody(s: Text, tail: Text)
    ensures ClosingQuote(QuoteBody(s) + tail, false) == After(|QuoteBody(s)|, ClosingQuote(tail, false))
  {
    hide QuoteUnit, ClosingQuote;
    if s == [] {
      assert [] + tail == tail;
    } else if |s| >= 2 && IsHigh(s[0]) && IsLow(s[1]) {
      ClosingAfterBody(s[2..], tail);
      PlainUnits([s[0], s[1]], QuoteBody(s[2..]) + tail);
      ClosingAfterParts([s[0], s[1]], QuoteBody(s[2..]), tail);
    } else {
      ClosingAfterBody(s[1..], tail);
      ClosingAfterUnit(s[0], QuoteBody(s[1..]) + tail);
      ClosingAfterParts(QuoteUnit(s[0]), QuoteBody(s[1..]), tail);
    }
  }

  lemma FirstQuote(rest: Text)
    ensures ClosingQuote([QUOTE] + rest, false) == Some(0)
  {}

  /** A quoted string reads back as itself, whatever follows. */
  lemma ReadQuoted(s: Text, rest: Text)
    ensures ReadString(Quote(s) + rest) == Some(ReadText(s, rest))
  {
    hide QuoteBody, Decode, ClosingQuote;
    var body := QuoteBody(s);
    ClosingAfterBody(s, [QUOTE] + rest);
    FirstQuote(rest);
    DecodeQuoted(s);
    assert (Quote(s) + rest)[1..] == body + ([QUOTE] + rest);
    assert (body + ([QUOTE] + rest))[..|body|] == body;
    assert (body + ([QUOTE] + rest))[|body| + 1..] == rest;
  }

  // ---- key order ----

  lemma {:induction false} LessIsTotal(a: Text, b: Text)
    ensures a == b || Less(a, b) || Less(b, a)
  {
    if a != [] && b != [] && a[0] == b[0] {
      LessIsTotal(a[1..], b[1..]);
      assert a[1..] == b[1..] ==> a == [a[0]] + a[1..] == b;
    }
  }

  lemma {:induction false} LessIsStrict(a: Text, b: Text)
    requires Less(a, b)
    ensures a != b && !Less(b, a)
  {
    if a != [] && a[0] == b[0] {
      LessIsStrict(a[1..], b[1..]);
    }
  }

  lemma {:induction false} LessIsTransitive(a: Text, b: Text, c: Text)
    requires Less(a, b) && Less(b, c)
    ensures Less(a, c)
  {
    if a != [] && a[0] == b[0] && b[0] == c[0] {
      LessIsTransitive(a[1..], b[1..], c[1..]);
    }
  }

  /** The finite map that a member list denotes. */
  function MapOf<V>(ms: seq<Member<V>>): map<Text, V> {
    if ms == [] then map[] else MapOf(ms[1..])[ms[0].key := ms[0].value]
  }

  lemma {:induction false} MapOfKeys<V>(ms: seq<Member<V>>, k: Text)
    ensures k in MapOf(ms) <==> exists i :: 0 <= i < |ms| && ms[i].key == k
  {
    if ms != [] {
      MapOfKeys(ms[1..], k);
      if i :| 0 <= i < |ms| && ms[i].key == k {
        assert i > 0 ==> ms[1..][i - 1].key == k;
      }
    }
  }

  /** Setting a key keeps the order and is the update of the map: the last duplicate wins. */
  lemma {:induction false} PutIsMapUpdate<V>(ms: seq<Member<V>>, k: Text, v: V)
    requires Ascending(ms)
    ensures Ascending(Put(ms, k, v)) && MapOf(Put(ms, k, v)) == MapOf(ms)[k := v]
    ensures forall m :: m in Put(ms, k, v) ==> m == Member(k, v) || m in ms
  {
    hide Less;
    var r := Put(ms, k, v);
    if ms == [] {
    } else if Less(k, ms[0].key) {
      FirstOfAll(ms, k);
      assert r[1..] == ms;
    } else if ms[0].key == k {
      assert r[1..] == ms[1..];
    } else {
      LessIsTotal(k, ms[0].key);
      var tail := Put(ms[1..], k, v);
      PutIsMapUpdate(ms[1..], k, v);
      assert r[1..] == tail;
      forall j | 0 <= j < |tail| ensures Less(ms[0].key, tail[j].key) {
        assert tail[j] in tail;
      }
    }
  }

  lemma FirstOfAll<V>(ms: seq<Member<V>>, k: Text)
    requires Ascending(ms) && ms != [] && Less(k, ms[0].key)
    ensures forall j :: 0 <= j < |ms| ==> Less(k, ms[j].key)
  {
    hide Less;
    forall j | 0 <= j < |ms| ensures Less(k, ms[j].key) {
      if j > 0 { LessIsTransitive(k, ms[0].key, ms[j].key); }
    }
  }

  /** A member list in ascending order is determined by the map it denotes. */
  lemma {:induction false} AscendingIsUnique<V>(a: seq<Member<V>>, b: seq<Member<V>>)
    requires Ascending(a) && Ascending(b) && MapOf(a) == MapOf(b)
    ensures a == b
  {
    if a == [] || b == [] {
      EmptyMap(a);
      EmptyMap(b);
    } else {
      LeastIsFirst(a, b);
      LeastIsFirst(b, a);
      if a[0].key != b[0].key {
        LessIsTotal(a[0].key, b[0].key);
        assert false;
      }
      TailMap(a);
      TailMap(b);
      AscendingIsUnique(a[1..], b[1..]);
      assert a == [a[0]] + a[1..] && b == [b[0]] + b[1..];
    }
  }

  lemma EmptyMap<V>(a: seq<Member<V>>)
    ensures a == [] <==> MapOf(a) == map[]
  {
    assert a != [] ==> a[0].key in MapOf(a);
  }

  lemma LeastIsFirst<V>(a: seq<Member<V>>, b: seq<Member<V>>)
    requires a != [] && b != [] && Ascending(b) && a[0].key in MapOf(b)
    ensures !Less(a[0].key, b[0].key)
  {
    MapOfKeys(b, a[0].key);
    var i :| 0 <= i < |b| && b[i].key == a[0].key;
    if i == 0 {
      if Less(b[0].key, b[0].key) { LessIsStrict(b[0].key, b[0].key); }
    } else {
      LessIsStrict(b[0].key, b[i].key);
    }
  }

  lemma TailMap<V>(a: seq<Member<V>>)
    requires a != [] && Ascending(a)
    ensures MapOf(a[1..]) == MapOf(a) - {a[0].key}
  {
    MapOfKeys(a[1..], a[0].key);
    if i :| 0 <= i < |a[1..]| && a[1..][i].key == a[0].key {
      LessIsStrict(a[0].key, a[i + 1].key);
    }
  }

  // ---- reading back what was printed: values ----

  /** Values the reader can produce at a nesting depth: normal numbers, ordered keys, bounded nesting. */
  predicate Canonical(v: Json, depth: nat)
    decreases v
  {
    && depth <= MAX_DEPTH
    && (v.Num? ==> IsNormal(v.number))
    && (v.Arr? ==> forall i :: 0 <= i < |v.items| ==> Canonical(v.items[i], depth + 1))
    && (v.Obj? ==> Ascending(v.members) && forall i :: 0 <= i < |v.members| ==> Canonical(v.members[i].value, depth + 1))
  }

  lemma DecimalTextHead(d: Decimal)
    ensures var s := DecimalText(d); s != [] && (s[0] == MINUS || IsDigit(s[0]))
  {
    hide IntText;
  }

  /** Nothing the printer writes opens with whitespace or a closing bracket. */
  lemma PrintHead(v: Json)
    ensures var s := Print(v); s != [] && !IsSpace(s[0]) && s[0] != CLOSE_BRACKET
  {
    hide DecimalText, QuoteBody;
    if v.Num? {
      DecimalTextHead(v.number);
    }
  }

  lemma ReadPrintedNumber(d: Decimal, rest: Text)
    requires IsNormal(d) && Stops(rest)
    ensures var t := DecimalText(d) + rest; t != [] && t[0] != QUOTE && t[0] != OPEN_BRACKET && t[0] != OPEN_BRACE && !IsSpace(t[0])
    ensures ReadScalar(DecimalText(d) + rest) == Some(Read(Num(d), rest))
  {
    hide DecimalText, ScanNumber, NormalForm, TokenValue;
    DecimalTextHead(d);
    var t := DecimalTextScans(d, rest);
  }

  lemma ReadPrintedLeaf(v: Json, depth: nat, rest: Text)
    requires Canonical(v, depth) && !v.Arr? && !v.Obj? && (v.Num? ==> Stops(rest))
    ensures ReadValue(Print(v) + rest, depth) == Some(Read(v, rest))
  {
    hide ReadString, Quote, DecimalText;
    match v
    case Null => assert (NULL + rest)[|NULL|..] == rest;
    case Bool(b) =>
      assert (TRUE + rest)[|TRUE|..] == rest;
      assert (FALSE + rest)[|FALSE|..] == rest;
    case Num(d) =>
      hide ReadScalar;
      ReadPrintedNumber(d, rest);
    case Str(s) =>
      ReadQuoted(s, rest);
      QuoteHead(s);
  }

  lemma QuoteHead(s: Text)
    ensures Quote(s) != [] && Quote(s)[0] == QUOTE
  {}

  /** The printer is a right inverse of the reader, whatever follows the value. */
  lemma {:induction false} ReadPrinted(v: Json, depth: nat, rest: Text)
    requires Canonical(v, depth) && (v.Num? ==> Stops(rest))
    ensures ReadValue(Print(v) + rest, depth) == Some(Read(v, rest))
    decreases v, 0
  {
    hide PrintItems, PrintMembers, ReadElements, ReadMembers;
    match v
    case Arr(items) =>
      ArrayBody(PrintItems(items), rest);
      PrintItemsHead(items);
      assert [] + items == items;
      if items != [] { ReadPrintedItems(items, depth, [], rest); }
    case Obj(members) =>
      ObjectBody(PrintMembers(members), rest);
      PrintMembersHead(members);
      assert [] + members == members;
      if members != [] { ReadPrintedMembers(members, depth, [], rest); }
    case _ => ReadPrintedLeaf(v, depth, rest);
  }

  lemma ArrayBody(body: Text, rest: Text)
    ensures var s := [OPEN_BRACKET] + body + [CLOSE_BRACKET] + rest;
            s[0] == OPEN_BRACKET && s[1..] == body + ([CLOSE_BRACKET] + rest)
    ensures body == [] ==> Expect(body + ([CLOSE_BRACKET] + rest), CLOSE_BRACKET) == Some(rest)
    ensures body != [] && !IsSpace(body[0]) && body[0] != CLOSE_BRACKET ==> Expect(body + ([CLOSE_BRACKET] + rest), CLOSE_BRACKET) == None
  {
    assert [] + ([CLOSE_BRACKET] + rest) == [CLOSE_BRACKET] + rest;
    assert ([CLOSE_BRACKET] + rest)[1..] == rest;
  }

  lemma ObjectBody(body: Text, rest: Text)
    ensures var s := [OPEN_BRACE] + body + [CLOSE_BRACE] + rest;
            s[0] == OPEN_BRACE && s[1..] == body + ([CLOSE_BRACE] + rest)
    ensures body == [] ==> Expect(body + ([CLOSE_BRACE] + rest), CLOSE_BRACE) == Some(rest)
    ensures body != [] && !IsSpace(body[0]) && body[0] != CLOSE_BRACE ==> Expect(body + ([CLOSE_BRACE] + rest), CLOSE_BRACE) == None
  {
    assert [] + ([CLOSE_BRACE] + rest) == [CLOSE_BRACE] + rest;
    assert ([CLOSE_BRACE] + rest)[1..] == rest;
  }

  lemma PrintItemsHead(items: seq<Json>)
    ensures var s := PrintItems(items); if items == [] then s == [] else s != [] && !IsSpace(s[0]) && s[0] != CLOSE_BRACKET
  {
    hide Print;
    if items != [] { PrintHead(items[0]); }
  }

  lemma PrintMembersHead(members: seq<Member<Json>>)
    ensures var s := PrintMembers(members); if members == [] then s == [] else s != [] && s[0] == QUOTE
  {
    hide Print, Quote;
    if members != [] { QuoteHead(members[0].key); }
  }

  /** The tail of a printed list after one element: the end, or a comma and the others. */
  function Tail(others: Text, close: Unit, rest: Text): Text {
    if others == [] then [close] + rest else [COMMA] + (others + ([close] + rest))
  }

  lemma TailExpect(others: Text, close: Unit, rest: Text)
    requires close == CLOSE_BRACKET || close == CLOSE_BRACE
    ensures Stops(Tail(others, close, rest))
    ensures others == [] ==> Expect(Tail(others, close, rest), close) == Some(rest)
    ensures others != [] ==> Expect(Tail(others, close, rest), close) == None
    ensures others != [] ==> Expect(Tail(others, close, rest), COMMA) == Some(others + ([close] + rest))
  {
    assert ([close] + rest)[1..] == rest;
    assert ([COMMA] + (others + ([close] + rest)))[1..] == others + ([close] + rest);
  }

  lemma PrintItemsSplits(items: seq<Json>, rest: Text)
    requires items != []
    ensures PrintItems(items) + ([CLOSE_BRACKET] + rest) == Print(items[0]) + Tail(PrintItems(items[1..]), CLOSE_BRACKET, rest)
  {
    hide Print;
    if |items| == 1 {
      assert PrintItems(items) == Print(items[0]);
      assert PrintItems(items[1..]) == [];
    } else {
      PrintItemsHead(items[1..]);
      Associate([COMMA], PrintItems(items[1..]), [CLOSE_BRACKET] + rest);
      Associate(Print(items[0]), [COMMA] + PrintItems(items[1..]), [CLOSE_BRACKET] + rest);
    }
  }

  lemma {:induction false} ReadPrintedItems(items: seq<Json>, depth: nat, before: seq<Json>, rest: Text)
    requires items != [] && forall i :: 0 <= i < |items| ==> Canonical(items[i], depth + 1)
    ensures ReadElements(PrintItems(items) + ([CLOSE_BRACKET] + rest), depth, before) == Some(Read(Arr(before + items), rest))
    decreases items, 1
  {
    hide Canonical, ReadValue, Print, PrintItems, Expect, Tail, Stops;
    var others := PrintItems(items[1..]);
    var tail := Tail(others, CLOSE_BRACKET, rest);
    PrintItemsSplits(items, rest);
    PrintItemsHead(items[1..]);
    TailExpect(others, CLOSE_BRACKET, rest);
    ReadPrinted(items[0], depth + 1, tail);
    if |items| == 1 {
      assert before + [items[0]] == before + items;
    } else {
      ReadPrintedItems(items[1..], depth, before + [items[0]], rest);
      assert before + [items[0]] + items[1..] == before + items;
    }
  }

  lemma {:induction false} PutAtEnd<V>(ms: seq<Member<V>>, k: Text, v: V)
    requires forall m :: m in ms ==> Less(m.key, k)
    ensures Put(ms, k, v) == ms + [Member(k, v)]
  {
    if ms != [] {
      assert ms[0] in ms;
      LessIsStrict(ms[0].key, k);
      PutAtEnd(ms[1..], k, v);
    }
  }

  lemma PrintMembersSplits(members: seq<Member<Json>>, rest: Text)
    requires members != []
    ensures PrintMembers(members) + ([CLOSE_BRACE] + rest)
            == Quote(members[0].key) + ([COLON] + (Print(members[0].value) + Tail(PrintMembers(members[1..]), CLOSE_BRACE, rest)))
  {
    hide Print, Quote;
    var key, value := Quote(members[0].key), Print(members[0].value);
    var end := [CLOSE_BRACE] + rest;
    if |members| == 1 {
      assert PrintMembers(members[1..]) == [];
      assert PrintMembers(members) == key + [COLON] + value;
      Associate(key + [COLON], value, end);
      Associate(key, [COLON], value + end);
    } else {
      var others := PrintMembers(members[1..]);
      PrintMembersHead(members[1..]);
      Associate([COMMA], others, end);
      Associate(key + [COLON] + value, [COMMA] + others, end);
      Associate(key + [COLON], value, [COMMA] + (others + end));
      Associate(key, [COLON], value + ([COMMA] + (others + end)));
    }
  }

  /** One printed member, whatever follows it, leaves the reader after its value. */
  lemma ReadMemberHead(key: Text, value: Text, tail: Text)
    ensures var s := Quote(key) + ([COLON] + (value + tail));
            SkipSpace(s) == s && ReadString(s) == Some(ReadText(key, [COLON] + (value + tail)))
            && Expect([COLON] + (value + tail), COLON) == Some(value + tail)
  {
    hide ReadString, Quote;
    QuoteHead(key);
    ReadQuoted(key, [COLON] + (value + tail));
    assert ([COLON] + (value + tail))[1..] == value + tail;
  }

  lemma {:induction false} ReadPrintedMembers(members: seq<Member<Json>>, depth: nat, before: seq<Member<Json>>, rest: Text)
    requires members != [] && forall i :: 0 <= i < |members| ==> Canonical(members[i].value, depth + 1)
    requires Ascending(before + members)
    ensures ReadMembers(PrintMembers(members) + ([CLOSE_BRACE] + rest), depth, before) == Some(Read(Obj(before + members), rest))
    decreases members, 1
  {
    hide Canonical, ReadValue, ReadString, Print, PrintMembers, Expect, Tail, Stops, Quote, SkipSpace, Less, Put;
    var head := members[0];
    var others := PrintMembers(members[1..]);
    var tail := Tail(others, CLOSE_BRACE, rest);
    PrintMembersSplits(members, rest);
    PrintMembersHead(members[1..]);
    TailExpect(others, CLOSE_BRACE, rest);
    ReadMemberHead(head.key, Print(head.value), tail);
    ReadPrinted(head.value, depth + 1, tail);
    PutNext(before, members);
    if |members| == 1 {
      assert before + [head] == before + members;
    } else {
      assert before + [head] + members[1..] == before + members;
      ReadPrintedMembers(members[1..], depth, before + [head], rest);
    }
  }

  lemma PutNext(before: seq<Member<Json>>, members: seq<Member<Json>>)
    requires members != [] && Ascending(before + members)
    ensures Put(before, members[0].key, members[0].value) == before + [members[0]]
  {
    hide Less;
    var all := before + members;
    assert all[|before|] == members[0];
    forall m | m in before ensures Less(m.key, members[0].key) {
      var i :| 0 <= i < |before| && before[i] == m;
      assert all[i] == m;
    }
    PutAtEnd(before, members[0].key, members[0].value);
  }

  // ---- what the reader can return ----

  lemma {:induction false} ReadValueIsCanonical(s: Text, depth: nat)
    requires ReadValue(s, depth).Some?
    ensures Canonical(ReadValue(s, depth).value.value, depth)
    decreases |s|, 0
  {
    hide ReadScalar, ReadString, Expect, ReadElements, ReadMembers;
    var t := SkipSpace(s);
    if t[0] == QUOTE {
    } else if t[0] == OPEN_BRACKET {
      if Expect(t[1..], CLOSE_BRACKET).None? { ReadElementsIsCanonical(t[1..], depth, []); }
    } else if t[0] == OPEN_BRACE {
      if Expect(t[1..], CLOSE_BRACE).None? { ReadMembersIsCanonical(t[1..], depth, []); }
    } else {
      ReadScalarIsCanonical(t, depth);
    }
  }

  lemma ReadScalarIsCanonical(t: Text, depth: nat)
    requires ReadScalar(t).Some? && depth <= MAX_DEPTH
    ensures Canonical(ReadScalar(t).value.value, depth)
  {
    hide ScanNumber, NormalForm, TokenValue;
  }

  lemma {:induction false} ReadElementsIsCanonical(s: Text, depth: nat, items: seq<Json>)
    requires ReadElements(s, depth, items).Some? && depth <= MAX_DEPTH
    requires forall i :: 0 <= i < |items| ==> Canonical(items[i], depth + 1)
    ensures Canonical(ReadElements(s, depth, items).value.value, depth)
    decreases |s|, 1
  {
    hide Expect, ReadValue;
    ReadValueIsCanonical(s, depth + 1);
    var item := ReadValue(s, depth + 1).value;
    var all := items + [item.value];
    if Expect(item.rest, CLOSE_BRACKET).None? {
      ReadElementsIsCanonical(Expect(item.rest, COMMA).value, depth, all);
    }
  }

  lemma {:induction false} ReadMembersIsCanonical(s: Text, depth: nat, members: seq<Member<Json>>)
    requires ReadMembers(s, depth, members).Some? && depth <= MAX_DEPTH
    requires Ascending(members) && forall i :: 0 <= i < |members| ==> Canonical(members[i].value, depth + 1)
    ensures Canonical(ReadMembers(s, depth, members).value.value, depth)
    decreases |s|, 1
  {
    hide Expect, ReadValue, ReadString, SkipSpace, Less, Put, MapOf;
    var key := ReadString(SkipSpace(s)).value;
    var colon := Expect(key.rest, COLON).value;
    ReadValueIsCanonical(colon, depth + 1);
    var value := ReadValue(colon, depth + 1).value;
    var all := Put(members, key.text, value.value);
    PutIsMapUpdate(members, key.text, value.value);
    forall i | 0 <= i < |all| ensures Canonical(all[i].value, depth + 1) {
      assert all[i] in all;
    }
    if Expect(value.rest, CLOSE_BRACE).None? {
      ReadMembersIsCanonical(Expect(value.rest, COMMA).value, depth, all);
    }
  }

  // ---- the canonical text ----

  /** What canonicalJSONText returns; None where it throws. */
  function CanonicalText(text: Text): Option<Text> {
    var v := Meaning(text);
    if v.None? then None else Some(Print(v.value))
  }

  lemma MeaningIsCanonical(text: Text)
    requires Meaning(text).Some?
    ensures Canonical(Meaning(text).value, 0)
  {
    hide ReadValue, Canonical;
    ReadValueIsCanonical(text, 0);
  }

  /** The canonical text of a parsed text parses, to the same value. */
  lemma CanonicalKeepsMeaning(text: Text)
    requires Meaning(text).Some?
    ensures CanonicalText(text).Some? && Meaning(CanonicalText(text).value) == Meaning(text)
  {
    hide ReadValue, Print, Canonical;
    MeaningIsCanonical(text);
    var v := Meaning(text).value;
    ReadPrinted(v, 0, []);
    assert Print(v) + [] == Print(v);
  }

  /** Canonicalising twice is canonicalising once. */
  lemma CanonicalTwice(text: Text)
    requires CanonicalText(text).Some?
    ensures CanonicalText(CanonicalText(text).value) == CanonicalText(text)
  {
    hide Meaning, Print;
    CanonicalKeepsMeaning(text);
  }

  /** Two texts that parse have one canonical form exactly when they denote the same value. */
  lemma CanonicalDecidesMeaning(a: Text, b: Text)
    requires Meaning(a).Some? && Meaning(b).Some?
    ensures CanonicalText(a) == CanonicalText(b) <==> SameValue(Meaning(a).value, Meaning(b).value)
  {
    hide Meaning, Print, SameValue, Canonical;
    CanonicalKeepsMeaning(a);
    CanonicalKeepsMeaning(b);
    MeaningIsCanonical(a);
    MeaningIsCanonical(b);
    SameValueIffEqual(Meaning(a).value, Meaning(b).value, 0);
  }

  /**
   * Sameness of values: numbers as rationals, strings unit by unit, arrays in order,
   * objects as maps from keys to values.
   */
  predicate SameValue(a: Json, b: Json)
    decreases a
  {
    match (a, b)
    case (Num(x), Num(y)) => SameNumber(x, y)
    case (Arr(xs), Arr(ys)) => |xs| == |ys| && forall i :: 0 <= i < |xs| ==> SameValue(xs[i], ys[i])
    case (Obj(xs), Obj(ys)) =>
      && MapOf(xs).Keys == MapOf(ys).Keys
      && forall i, j :: 0 <= i < |xs| && 0 <= j < |ys| && xs[i].key == ys[j].key ==> SameValue(xs[i].value, ys[j].value)
    case _ => a == b
  }

  function KeysOnly(ms: seq<Member<Json>>): (r: seq<Member<Json>>)
    ensures |r| == |ms| && forall i :: 0 <= i < |ms| ==> r[i] == Member(ms[i].key, Null)
  {
    seq(|ms|, i requires 0 <= i < |ms| => Member(ms[i].key, Null))
  }

  lemma {:induction false} KeysOnlyMap(ms: seq<Member<Json>>)
    ensures MapOf(KeysOnly(ms)).Keys == MapOf(ms).Keys && forall k :: k in MapOf(KeysOnly(ms)) ==> MapOf(KeysOnly(ms))[k] == Null
  {
    if ms != [] {
      KeysOnlyMap(ms[1..]);
      assert KeysOnly(ms)[1..] == KeysOnly(ms[1..]);
    }
  }

  lemma SameKeysAlign(xs: seq<Member<Json>>, ys: seq<Member<Json>>)
    requires Ascending(xs) && Ascending(ys) && MapOf(xs).Keys == MapOf(ys).Keys
    ensures |xs| == |ys| && forall i :: 0 <= i < |xs| ==> xs[i].key == ys[i].key
  {
    hide MapOf, Less;
    KeysOnlyMap(xs);
    KeysOnlyMap(ys);
    assert MapOf(KeysOnly(xs)) == MapOf(KeysOnly(ys));
    AscendingIsUnique(KeysOnly(xs), KeysOnly(ys));
    forall i | 0 <= i < |xs| ensures |xs| == |ys| && xs[i].key == ys[i].key {
      assert KeysOnly(xs)[i].key == KeysOnly(ys)[i].key;
    }
  }

  /** On what the reader returns, sameness of values is equality of the representation. */
  lemma {:induction false} SameValueIffEqual(a: Json, b: Json, depth: nat)
    requires Canonical(a, depth) && Canonical(b, depth)
    ensures SameValue(a, b) <==> a == b
    decreases a
  {
    if a.Num? && b.Num? {
      SameIffOneNormalForm(a.number, b.number);
      NormalIsItself(a.number);
      NormalIsItself(b.number);
    } else if a.Arr? && b.Arr? {
      if |a.items| == |b.items| {
        forall i | 0 <= i < |a.items| ensures SameValue(a.items[i], b.items[i]) <==> a.items[i] == b.items[i] {
          SameValueIffEqual(a.items[i], b.items[i], depth + 1);
        }
      }
    } else if a.Obj? && b.Obj? {
      SameObjectIffEqual(a, b, depth);
    }
  }

  lemma {:induction false} SameObjectIffEqual(a: Json, b: Json, depth: nat)
    requires a.Obj? && b.Obj? && Canonical(a, depth) && Canonical(b, depth)
    ensures SameValue(a, b) <==> a == b
    decreases a, 0
  {
    hide MapOf, Less;
    var xs, ys := a.members, b.members;
    forall i, j | 0 <= i < |xs| && 0 <= j < |ys| ensures SameValue(xs[i].value, ys[j].value) <==> xs[i].value == ys[j].value {
      SameValueIffEqual(xs[i].value, ys[j].value, depth + 1);
    }
    if SameValue(a, b) {
      SameKeysAlign(xs, ys);
      forall i | 0 <= i < |xs| ensures xs[i] == ys[i] {
        assert xs[i].key == ys[i].key;
      }
      assert xs == ys;
    }
    if a == b {
      forall i, j | 0 <= i < |xs| && 0 <= j < |ys| && xs[i].key == ys[j].key ensures SameValue(xs[i].value, ys[j].value) {
        KeysDistinct(xs, i, j);
      }
    }
  }

  lemma KeysDistinct(ms: seq<Member<Json>>, i: nat, j: nat)
    requires Ascending(ms) && i < |ms| && j < |ms| && ms[i].key == ms[j].key
    ensures i == j
  {
    if i < j {
      LessIsStrict(ms[i].key, ms[j].key);
    } else if j < i {
      LessIsStrict(ms[j].key, ms[i].key);
    }
  }
}
