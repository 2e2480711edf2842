/**
 * The canonicaliser itself: one pass over the text with a moving offset, producing the
 * canonical text directly.  Every method is tied to the reading functions of CanonicalJson.
 */
module CanonicalReader {
  import opened Common
  import opened Decimals
  import opened CanonicalJson

  /** [...values.entries()].sort(by key) */
  method SortedEntries(values: map<Text, Text>) returns (entries: seq<Member<Text>>)
    ensures Ascending(entries) && MapOf(entries) == values
  {
    hide Put, Less, Ascending, MapOf;
    entries := [];
    EmptyEntries();
    var left := values;
    while left != map[]
      invariant Ascending(entries) && left.Keys !! MapOf(entries).Keys && MapOf(entries) + left == values
      decreases |left|
    {
      var k :| k in left;
      PutIsMapUpdate(entries, k, left[k]);
      MoveOne(MapOf(entries), left, k);
      entries, left := Put(entries, k, left[k]), left - {k};
    }
  }

  lemma MoveOne(done: map<Text, Text>, left: map<Text, Text>, k: Text)
    requires k in left && left.Keys !! done.Keys
    ensures var more := done[k := left[k]]; var rest := left - {k};
            rest.Keys !! more.Keys && more + rest == done + left && |rest| < |left|
  {
    assert left.Keys == (left - {k}).Keys + {k};
    assert |left.Keys| == |(left - {k}).Keys| + 1;
  }

  lemma EmptyEntries()
    ensures Ascending<Text>([]) && MapOf<Text>([]) == map[]
  {}

  function Join(parts: seq<Text>): Text {
    if parts == [] then []
    else parts[0] + if |parts| == 1 then [] else [COMMA] + Join(parts[1..])
  }

  function PrintAll(items: seq<Json>): (r: seq<Text>)
    ensures |r| == |items|
  {
    if items == [] then [] else [Print(items[0])] + PrintAll(items[1..])
  }

  lemma {:induction false} PrintAllAppend(items: seq<Json>, v: Json)
    ensures PrintAll(items + [v]) == PrintAll(items) + [Print(v)]
  {
    hide Print;
    if items != [] {
      PrintAllAppend(items[1..], v);
      assert (items + [v])[1..] == items[1..] + [v];
    }
  }

  lemma {:induction false} JoinPrinted(items: seq<Json>)
    ensures Join(PrintAll(items)) == PrintItems(items)
  {
    hide Print;
    if items != [] {
      JoinPrinted(items[1..]);
      assert PrintAll(items)[1..] == PrintAll(items[1..]);
    }
  }

  function PrintValues(ms: seq<Member<Json>>): (r: seq<Member<Text>>)
    ensures |r| == |ms| && forall i :: 0 <= i < |ms| ==> r[i] == Member(ms[i].key, Print(ms[i].value))
  {
    if ms == [] then [] else [Member(ms[0].key, Print(ms[0].value))] + PrintValues(ms[1..])
  }

  lemma {:induction false} PutPrinted(ms: seq<Member<Json>>, k: Text, v: Json)
    ensures PrintValues(Put(ms, k, v)) == Put(PrintValues(ms), k, Print(v))
  {
    hide Print, Less;
    if ms != [] {
      PutPrinted(ms[1..], k, v);
      assert PrintValues(ms)[1..] == PrintValues(ms[1..]);
      assert Put(ms, k, v)[1..] == (if Less(k, ms[0].key) then ms else if ms[0].key == k then ms[1..] else Put(ms[1..], k, v));
    }
  }

  function EntryTexts(entries: seq<Member<Text>>): (r: seq<Text>)
    ensures |r| == |entries|
  {
    if entries == [] then [] else [Quote(entries[0].key) + [COLON] + entries[0].value] + EntryTexts(entries[1..])
  }

  lemma {:induction false} JoinEntries(ms: seq<Member<Json>>)
    ensures Join(EntryTexts(PrintValues(ms))) == PrintMembers(ms)
  {
    hide Print, Quote;
    if ms != [] {
      JoinEntries(ms[1..]);
      assert PrintValues(ms)[1..] == PrintValues(ms[1..]);
      assert EntryTexts(PrintValues(ms))[1..] == EntryTexts(PrintValues(ms[1..]));
    }
  }

  /** The object text that the sorted map entries spell. */
  lemma SortedEntriesSpell(members: seq<Member<Json>>, entries: seq<Member<Text>>)
    requires Ascending(members) && Ascending(entries) && MapOf(entries) == MapOf(PrintValues(members))
    ensures [OPEN_BRACE] + Join(EntryTexts(entries)) + [CLOSE_BRACE] == Print(Obj(members))
  {
    hide Less, MapOf;
    AscendingIsUnique(entries, PrintValues(members));
    JoinEntries(members);
  }

  class Reader {
    const text: Text
    var offset: nat

    constructor (text: Text)
      ensures this.text == text && offset == 0
    {
      this.text, offset := text, 0;
    }

    ghost predicate Valid()
      reads this
    {
      offset <= |text|
    }

    /** What is still to be read. */
    ghost function Left(): Text
      reads this
      requires Valid()
    {
      text[offset..]
    }

    /** text[offset], compared with a unit. */
    predicate At(c: Unit)
      reads this
      requires Valid()
      ensures At(c) == (Left() != [] && Left()[0] == c)
    {
      offset < |text| && text[offset] == c
    }

    method Advance(n: nat)
      requires Valid() && n <= |Left()|
      modifies this
      ensures Valid() && Left() == old(Left())[n..]
    {
      offset := offset + n;
    }

    method SkipWhitespace()
      requires Valid()
      modifies this
      ensures Valid() && Left() == SkipSpace(old(Left()))
    {
      hide IsSpace;
      while offset < |text| && IsSpace(text[offset])
        invariant Valid() && SkipSpace(Left()) == SkipSpace(old(Left()))
        decreases |text| - offset
      {
        assert text[offset..][1..] == text[offset + 1..];
        offset := offset + 1;
      }
    }

    /** stringValue: the decoded text, None where it throws. */
    method StringValue() returns (r: Option<Text>)
      requires Valid() && At(QUOTE)
      modifies this
      ensures Valid()
      ensures var s := ReadString(old(Left()));
              if s.None? then r == None else r == Some(s.value.text) && Left() == s.value.rest
    {
      hide Decode, ReadString, Closing;
      ghost var was := Left();
      var start := offset + 1;
      ghost var body := text[start..];
      assert was[1..] == body;
      offset := start;
      var escaped := false;
      ClosingStart(body);
      while offset < |text|
        invariant start <= offset <= |text| && Closing(body, offset - start, escaped)
        decreases |text| - offset
      {
        var character := text[offset];
        ClosingStep(body, offset - start, escaped);
        offset := offset + 1;
        if escaped {
          escaped := false;
        } else if character == BACKSLASH {
          escaped := true;
        } else if character == QUOTE {
          ClosedAt(was, offset - start - 1);
          assert text[start..offset - 1] == body[..offset - start - 1];
          assert body[offset - start..] == text[offset..];
          return Decode(text[start..offset - 1]);
        }
      }
      ClosingNone(body, escaped);
      NeverClosed(was);
      return None;
    }

    /** The loop after an opening bracket. */
    method ParseElements(depth: nat) returns (r: Option<Text>)
      requires Valid()
      modifies this
      ensures Valid() && Tells(ReadElements(old(Left()), depth, []), r, Left())
      decreases |text| - offset, 1
    {
      hide ReadElements, ReadValue, SkipSpace, Expect, Print, Join;
      var values := [];
      ghost var items: seq<Json> := [];
      while true
        invariant Valid() && offset >= old(offset) && values == PrintAll(items)
        invariant ReadElements(old(Left()), depth, []) == ReadElements(Left(), depth, items)
        decreases |text| - offset
      {
        ghost var left := Left();
        var value := ParseValue(depth + 1);
        ElementStep(left, depth, items);
        if value.None? {
          return None;
        }
        ghost var item := ReadValue(left, depth + 1).value;
        PrintAllAppend(items, item.value);
        values, items := values + [value.value], items + [item.value];
        SkipWhitespace();
        if At(CLOSE_BRACKET) {
          Advance(1);
          JoinPrinted(items);
          PrintArray(items);
          return Some([OPEN_BRACKET] + Join(values) + [CLOSE_BRACKET]);
        }
        if !At(COMMA) {
          return None;
        }
        Advance(1);
      }
    }

    /** The loop after an opening brace. */
    method ParseMembers(depth: nat) returns (r: Option<Text>)
      requires Valid()
      modifies this
      ensures Valid() && Tells(ReadMembers(old(Left()), depth, []), r, Left())
      decreases |text| - offset, 1
    {
      hide ReadMembers, ReadValue, ReadString, SkipSpace, Expect, Print, Join, Ascending, MapOf, PrintValues, EntryTexts, Put;
      var values: map<Text, Text> := map[];
      ghost var members: seq<Member<Json>> := [];
      NoMembers();
      while true
        invariant Valid() && offset >= old(offset) && Ascending(members) && values == MapOf(PrintValues(members))
        invariant ReadMembers(old(Left()), depth, []) == ReadMembers(Left(), depth, members)
        decreases |text| - offset
      {
        ghost var left := Left();
        MemberStep(left, depth, members);
        SkipWhitespace();
        if !At(QUOTE) {
          return None;
        }
        var key := StringValue();
        if key.None? {
          return None;
        }
        SkipWhitespace();
        if !At(COLON) {
          return None;
        }
        Advance(1);
        ghost var afterColon := Left();
        var value := ParseValue(depth + 1);
        if value.None? {
          return None;
        }
        ghost var v := ReadValue(afterColon, depth + 1).value.value;
        PutIsMapUpdate(members, key.value, v);
        PutPrintedMap(members, key.value, v);
        values, members := values[key.value := value.value], Put(members, key.value, v);
        SkipWhitespace();
        if At(CLOSE_BRACE) {
          Advance(1);
          var entries := SortedEntries(values);
          SortedEntriesSpell(members, entries);
          return Some([OPEN_BRACE] + Join(EntryTexts(entries)) + [CLOSE_BRACE]);
        }
        if !At(COMMA) {
          return None;
        }
        Advance(1);
      }
    }

    /** parseValue: the canonical text of the value at the head, None where it throws. */
    method ParseValue(depth: nat) returns (r: Option<Text>)
      requires Valid()
      modifies this
      ensures Valid() && Tells(ReadValue(old(Left()), depth), r, Left())
      ensures r.Some? ==> offset > old(offset)
      decreases |text| - offset, 0
    {
      hide ReadElements, ReadMembers, ReadString, ReadScalar, Print, SkipSpace, Expect;
      if depth > MAX_DEPTH {
        return None;
      }
      ghost var left := Left();
      SkipWhitespace();
      ghost var t := Left();
      ValueStep(left, depth);
      if At(QUOTE) {
        var decoded := StringValue();
        PrintString();
        return if decoded.None? then None else Some(Quote(decoded.value));
      }
      if At(OPEN_BRACKET) {
        Advance(1);
        SkipWhitespace();
        if At(CLOSE_BRACKET) {
          Advance(1);
          PrintEmpty();
          return Some([OPEN_BRACKET, CLOSE_BRACKET]);
        }
        r := ParseElements(depth);
        return;
      }
      if At(OPEN_BRACE) {
        Advance(1);
        SkipWhitespace();
        if At(CLOSE_BRACE) {
          Advance(1);
          PrintEmpty();
          return Some([OPEN_BRACE, CLOSE_BRACE]);
        }
        r := ParseMembers(depth);
        return;
      }
      r := Scalar();
    }

    /** The literals, then a number. */
    method Scalar() returns (r: Option<Text>)
      requires Valid()
      modifies this
      ensures Valid() && Tells(ReadScalar(old(Left())), r, Left())
    {
      hide ScanNumber, DecimalText, NormalForm, TokenValue;
      if StartsWith(text[offset..], TRUE) {
        Advance(|TRUE|);
        return Some(TRUE);
      }
      if StartsWith(text[offset..], FALSE) {
        Advance(|FALSE|);
        return Some(FALSE);
      }
      if StartsWith(text[offset..], NULL) {
        Advance(|NULL|);
        return Some(NULL);
      }
      var scan := ScanNumber(text[offset..]);
      if scan.None? {
        return None;
      }
      ghost var left := Left();
      ScanNumberRest(left);
      Advance(|text| - offset - |scan.value.rest|);
      var number := CanonicalJSONNumber(scan.value.token);
      return Some(number);
    }
  }

  /** canonicalJSONText. */
  method CanonicalJSONText(text: Text) returns (r: Option<Text>)
    ensures r == CanonicalText(text)
  {
    hide ReadValue, Print, SkipSpace;
    var reader := new Reader(text);
    assert reader.Left() == text;
    r := reader.ParseValue(0);
    if r.Some? {
      reader.SkipWhitespace();
      if reader.offset != |text| {
        return None;
      }
    }
  }

  /** The method's answer r and what it leaves are what the reading function says. */
  ghost predicate Tells(spec: Option<Read>, r: Option<Text>, left: Text) {
    if spec.None? then r == None else r == Some(Print(spec.value.value)) && left == spec.value.rest
  }

  /** The scan has passed n units of the body without meeting the closing quote. */
  ghost predicate Closing(body: Text, n: nat, escaped: bool)
    requires n <= |body|
  {
    ClosingQuote(body, false) == After(n, ClosingQuote(body[n..], escaped))
  }

  lemma ClosingStart(body: Text)
    ensures Closing(body, 0, false)
  {
    assert body[0..] == body;
  }

  lemma ClosingUnfold(s: Text, escaped: bool)
    requires s != []
    ensures ClosingQuote(s, escaped)
            == if !escaped && s[0] == QUOTE then Some(0) else After(1, ClosingQuote(s[1..], !escaped && s[0] == BACKSLASH))
  {}

  lemma ClosingStep(body: Text, n: nat, escaped: bool)
    requires n < |body| && Closing(body, n, escaped)
    ensures !escaped && body[n] == QUOTE ==> ClosingQuote(body, false) == Some(n)
    ensures escaped || body[n] != QUOTE ==> Closing(body, n + 1, !escaped && body[n] == BACKSLASH)
  {
    hide ClosingQuote;
    ClosingUnfold(body[n..], escaped);
    assert body[n..][1..] == body[n + 1..];
  }

  lemma ClosedAt(s: Text, n: nat)
    requires s != [] && s[0] == QUOTE && ClosingQuote(s[1..], false) == Some(n)
    ensures n < |s[1..]|
    ensures var text := Decode(s[1..][..n]);
            ReadString(s) == if text.None? then None else Some(ReadText(text.value, s[1..][n + 1..]))
  {
    hide Decode;
  }

  lemma NeverClosed(s: Text)
    requires s != [] && s[0] == QUOTE && ClosingQuote(s[1..], false) == None
    ensures ReadString(s) == None
  {}

  lemma ClosingNone(body: Text, escaped: bool)
    requires Closing(body, |body|, escaped)
    ensures ClosingQuote(body, false) == None
  {}

  // ---- one turn of each loop ----

  lemma PrintArray(items: seq<Json>)
    ensures Print(Arr(items)) == [OPEN_BRACKET] + PrintItems(items) + [CLOSE_BRACKET]
  {}

  lemma PrintEmpty()
    ensures Print(Arr([])) == [OPEN_BRACKET, CLOSE_BRACKET] && Print(Obj([])) == [OPEN_BRACE, CLOSE_BRACE]
  {}

  lemma PrintString()
    ensures forall s: Text {:trigger Quote(s)} :: Print(Str(s)) == Quote(s)
  {}

  predicate StartsAt(s: Text, c: Unit) {
    s != [] && s[0] == c
  }

  lemma ElementStep(left: Text, depth: nat, items: seq<Json>)
    ensures var item := ReadValue(left, depth + 1);
            if item.None? then ReadElements(left, depth, items) == None
            else
              var all := items + [item.value.value];
              var t := SkipSpace(item.value.rest);
              ReadElements(left, depth, items)
              == if StartsAt(t, CLOSE_BRACKET) then Some(Read(Arr(all), t[1..]))
                 else if StartsAt(t, COMMA) then ReadElements(t[1..], depth, all) else None
  {
    hide ReadValue, SkipSpace;
  }

  lemma MemberStep(left: Text, depth: nat, members: seq<Member<Json>>)
    ensures var s := SkipSpace(left);
            if !StartsAt(s, QUOTE) || ReadString(s).None? then ReadMembers(left, depth, members) == None
            else
              var key := ReadString(s).value;
              var t := SkipSpace(key.rest);
              if !StartsAt(t, COLON) || ReadValue(t[1..], depth + 1).None? then ReadMembers(left, depth, members) == None
              else
                var value := ReadValue(t[1..], depth + 1).value;
                var all := Put(members, key.text, value.value);
                var u := SkipSpace(value.rest);
                ReadMembers(left, depth, members)
                == if StartsAt(u, CLOSE_BRACE) then Some(Read(Obj(all), u[1..]))
                   else if StartsAt(u, COMMA) then ReadMembers(u[1..], depth, all) else None
  {
    hide ReadValue, SkipSpace, Put, Decode, ClosingQuote;
  }

  lemma ValueStep(left: Text, depth: nat)
    requires depth <= MAX_DEPTH
    ensures var t := SkipSpace(left);
            ReadValue(left, depth) ==
            if StartsAt(t, QUOTE) then
              (if ReadString(t).None? then None else Some(Read(Str(ReadString(t).value.text), ReadString(t).value.rest)))
            else if StartsAt(t, OPEN_BRACKET) then
              (var u := SkipSpace(t[1..]); if StartsAt(u, CLOSE_BRACKET) then Some(Read(Arr([]), u[1..])) else ReadElements(u, depth, []))
            else if StartsAt(t, OPEN_BRACE) then
              (var u := SkipSpace(t[1..]); if StartsAt(u, CLOSE_BRACE) then Some(Read(Obj([]), u[1..])) else ReadMembers(u, depth, []))
            else ReadScalar(t)
  {
    hide SkipSpace, ReadString, ReadElements, ReadMembers;
    var t := SkipSpace(left);
    if t != [] {
      SpaceBeforeElements(t[1..], depth);
      SpaceBeforeMembers(t[1..], depth);
    } else {
      EmptyScalar();
    }
  }

  lemma EmptyScalar()
    ensures ReadScalar([]) == None
  {}

  lemma SkipTwice(s: Text)
    ensures SkipSpace(SkipSpace(s)) == SkipSpace(s)
  {}

  lemma SpaceBeforeValue(s: Text, depth: nat)
    ensures ReadValue(SkipSpace(s), depth) == ReadValue(s, depth)
  {
    hide SkipSpace, ReadString, ReadElements, ReadMembers, ReadScalar, Expect;
    SkipTwice(s);
  }

  lemma SpaceBeforeElements(s: Text, depth: nat)
    ensures ReadElements(SkipSpace(s), depth, []) == ReadElements(s, depth, [])
  {
    hide SkipSpace, ReadValue, Expect;
    SpaceBeforeValue(s, depth + 1);
  }

  lemma SpaceBeforeMembers(s: Text, depth: nat)
    ensures ReadMembers(SkipSpace(s), depth, []) == ReadMembers(s, depth, [])
  {
    hide SkipSpace, ReadValue, Expect, ReadString, Put;
    SkipTwice(s);
  }

  lemma NoMembers()
    ensures Ascending<Json>([]) && MapOf(PrintValues([])) == map[]
  {}

  lemma PutPrintedMap(ms: seq<Member<Json>>, k: Text, v: Json)
    requires Ascending(ms)
    ensures MapOf(PrintValues(Put(ms, k, v))) == MapOf(PrintValues(ms))[k := Print(v)]
  {
    hide Print, MapOf, Put, Less;
    PutPrinted(ms, k, v);
    PutIsMapUpdate(PrintValues(ms), k, Print(v));
  }

  /** What a scan leaves is a suffix of what it was given. */
  lemma ScanNumberRest(s: Text)
    requires ScanNumber(s).Some?
    ensures var rest := ScanNumber(s).value.rest; |rest| <= |s| && rest == s[|s| - |rest|..]
  {
    hide ScanWhole, ScanFraction, ScanExponent;
  }
}
