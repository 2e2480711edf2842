/**
 * The bounded JSON-Schema validator for tool arguments.  JSON numbers are modelled as reals,
 * strings as sequences of code points, and object keys keep their order.
 */
module ToolSchema {
  import opened Common

  const MAX_SCHEMA_DEPTH := 64
  const MAX_VALIDATION_NODES := 50_000
  const MAX_SAFE_INTEGER := 9007199254740991

  datatype Json = Null | Bool(truth: bool) | Num(number: real) | Str(text: string) | Arr(items: seq<Json>) | Obj(fields: seq<Field>)

  datatype Field = Field(key: string, value: Json)

  function Lookup(fields: seq<Field>, key: string): Option<Json> {
    if fields == [] then None
    else if fields[0].key == key then Some(fields[0].value)
    else Lookup(fields[1..], key)
  }

  // ---- equality of values ----

  /** jsonEqual; leaves compare at any depth, containers only down to the limit. */
  predicate JsonEqual(a: Json, b: Json, depth: nat)
    decreases a
  {
    match (a, b)
    case (Arr(xs), Arr(ys)) =>
      depth <= MAX_SCHEMA_DEPTH && |xs| == |ys| && forall i :: 0 <= i < |xs| ==> JsonEqual(xs[i], ys[i], depth + 1)
    case (Obj(xs), Obj(ys)) =>
      && depth <= MAX_SCHEMA_DEPTH && |xs| == |ys|
      && forall i :: 0 <= i < |xs| ==> var y := Lookup(ys, xs[i].key); y.Some? && JsonEqual(xs[i].value, y.value, depth + 1)
    case _ => a == b
  }

  /** Equality of JSON values, objects compared as maps. */
  predicate Same(a: Json, b: Json)
    decreases a
  {
    match (a, b)
    case (Arr(xs), Arr(ys)) => |xs| == |ys| && forall i :: 0 <= i < |xs| ==> Same(xs[i], ys[i])
    case (Obj(xs), Obj(ys)) =>
      |xs| == |ys| && forall i :: 0 <= i < |xs| ==> var y := Lookup(ys, xs[i].key); y.Some? && Same(xs[i].value, y.value)
    case _ => a == b
  }

  /** No container of the value lies deeper than the limit lets a comparison at this depth see. */
  predicate Shallow(a: Json, depth: nat)
    decreases a
  {
    match a
    case Arr(xs) => depth <= MAX_SCHEMA_DEPTH && forall i :: 0 <= i < |xs| ==> Shallow(xs[i], depth + 1)
    case Obj(xs) => depth <= MAX_SCHEMA_DEPTH && forall i :: 0 <= i < |xs| ==> Shallow(xs[i].value, depth + 1)
    case _ => true
  }

  /** The bounded comparison finds two values equal exactly when they are and are not too deep. */
  lemma {:induction false} JsonEqualIsSame(a: Json, b: Json, depth: nat)
    ensures JsonEqual(a, b, depth) <==> Same(a, b) && Shallow(a, depth)
    decreases a
  {
    match (a, b)
    case (Arr(xs), Arr(ys)) =>
      if |xs| == |ys| {
        forall i | 0 <= i < |xs| ensures JsonEqual(xs[i], ys[i], depth + 1) <==> Same(xs[i], ys[i]) && Shallow(xs[i], depth + 1) {
          JsonEqualIsSame(xs[i], ys[i], depth + 1);
        }
      }
    case (Obj(xs), Obj(ys)) =>
      forall i | 0 <= i < |xs| && Lookup(ys, xs[i].key).Some?
        ensures var y := Lookup(ys, xs[i].key).value;
                JsonEqual(xs[i].value, y, depth + 1) <==> Same(xs[i].value, y) && Shallow(xs[i].value, depth + 1)
      {
        JsonEqualIsSame(xs[i].value, Lookup(ys, xs[i].key).value, depth + 1);
      }
    case _ =>
  }

  // ---- local references: section 4 of RFC 6901 ----

  function IndexText(n: nat): string {
    if n < 10 then ["0123456789"[n]] else IndexText(n / 10) + ["0123456789"[n % 10]]
  }

  /** The array position that a reference token names: decimal digits without leading zeros. */
  function IndexOf(token: string, length: nat): (r: Option<nat>)
    ensures r.Some? ==> r.value < length && IndexText(r.value) == token
    ensures r.None? ==> forall i :: 0 <= i < length ==> IndexText(i) != token
  {
    if length == 0 then None
    else if IndexText(length - 1) == token then Some(length - 1)
    else IndexOf(token, length - 1)
  }

  /** replaceAll of the two-character escape `~c`. */
  function Replace(s: string, c: char, plain: char): string {
    if |s| < 2 then s
    else if s[0] == '~' && s[1] == c then [plain] + Replace(s[2..], c, plain)
    else [s[0]] + Replace(s[1..], c, plain)
  }

  function Unescape(token: string): string {
    Replace(Replace(token, '1', '/'), '0', '~')
  }

  function Split(s: string): (r: seq<string>)
    ensures r != []
  {
    if s == [] then [[]]
    else
      var tail := Split(s[1..]);
      if s[0] == '/' then [[]] + tail else [[s[0]] + tail[0]] + tail[1..]
  }

  function Child(current: Json, key: string): Option<Json> {
    match current
    case Obj(fields) => Lookup(fields, key)
    case Arr(items) => var i := IndexOf(key, |items|); if i.Some? then Some(items[i.value]) else None
    case _ => None
  }

  function Walk(current: Json, keys: seq<string>): Option<Json>
    decreases keys
  {
    if keys == [] then Some(current)
    else
      var next := Child(current, keys[0]);
      if next.None? then None else Walk(next.value, keys[1..])
  }

  function UnescapeAll(tokens: seq<string>): seq<string> {
    if tokens == [] then [] else [Unescape(tokens[0])] + UnescapeAll(tokens[1..])
  }

  /** localReference, by its meaning. */
  function Resolve(root: Json, reference: string): Option<Json> {
    if reference == "#" then Some(root)
    else if |reference| < 2 || reference[..2] != "#/" then None
    else Walk(root, UnescapeAll(Split(reference[2..])))
  }

  /** localReference: the walk with its loop variable. */
  method LocalReference(root: Json, reference: string) returns (r: Option<Json>)
    ensures r == Resolve(root, reference)
  {
    if reference == "#" {
      return Some(root);
    }
    if |reference| < 2 || reference[..2] != "#/" {
      return None;
    }
    var parts := Split(reference[2..]);
    var current := root;
    var i := 0;
    while i < |parts|
      invariant 0 <= i <= |parts|
      invariant Resolve(root, reference) == Walk(current, UnescapeAll(parts[i..]))
    {
      assert parts[i..][1..] == parts[i + 1..];
      var next := Child(current, Unescape(parts[i]));
      if next.None? {
        return None;
      }
      current := next.value;
      i := i + 1;
    }
    return Some(current);
  }

  function Escape(key: string): string {
    if key == [] then []
    else (if key[0] == '~' then "~0" else if key[0] == '/' then "~1" else [key[0]]) + Escape(key[1..])
  }

  /** A key after the first step of Unescape: only `~` is still escaped. */
  function EscapeTilde(key: string): string {
    if key == [] then [] else (if key[0] == '~' then "~0" else [key[0]]) + EscapeTilde(key[1..])
  }

  lemma {:induction false} UnescapeSlash(key: string)
    ensures Replace(Escape(key), '1', '/') == EscapeTilde(key)
    ensures Escape(key) != [] ==> Escape(key)[0] != '1' || key[0] == '1'
  {
    if key != [] {
      UnescapeSlash(key[1..]);
      var tail := Escape(key[1..]);
      if key[0] == '~' {
        assert Escape(key)[1..] == "0" + tail;
        assert ("0" + tail)[1..] == tail;
        assert Replace("0" + tail, '1', '/') == "0" + Replace(tail, '1', '/');
      } else if key[0] == '/' {
        assert Escape(key)[2..] == tail;
      } else {
        assert Escape(key)[1..] == tail;
      }
    }
  }

  lemma {:induction false} UnescapeTilde(key: string)
    ensures Replace(EscapeTilde(key), '0', '~') == key
  {
    if key != [] {
      UnescapeTilde(key[1..]);
      var tail := EscapeTilde(key[1..]);
      if key[0] == '~' {
        assert EscapeTilde(key)[2..] == tail;
        assert key == ['~'] + key[1..];
      } else {
        assert EscapeTilde(key)[1..] == tail;
        assert key == [key[0]] + key[1..];
      }
    }
  }

  /** A reference token spells any key, and unescaping recovers it. */
  lemma UnescapeEscape(key: string)
    ensures Unescape(Escape(key)) == key
  {
    UnescapeSlash(key);
    UnescapeTilde(key);
  }

  lemma {:induction false} EscapeHasNoSlash(key: string)
    ensures '/' !in Escape(key)
  {
    if key != [] { EscapeHasNoSlash(key[1..]); }
  }

  /** The pointer text for a path of keys, without its leading `#/`. */
  function PointerText(keys: seq<string>): string
    requires keys != []
  {
    Escape(keys[0]) + if |keys| == 1 then [] else "/" + PointerText(keys[1..])
  }

  function EscapeAll(keys: seq<string>): seq<string> {
    if keys == [] then [] else [Escape(keys[0])] + EscapeAll(keys[1..])
  }

  lemma {:induction false} SplitToken(token: string, rest: string)
    requires '/' !in token
    ensures Split(token + ("/" + rest)) == [token] + Split(rest)
    ensures Split(token) == [token]
  {
    if token == [] {
      assert [] + ("/" + rest) == "/" + rest;
      assert ("/" + rest)[1..] == rest;
    } else {
      SplitToken(token[1..], rest);
      assert (token + ("/" + rest))[1..] == token[1..] + ("/" + rest);
      assert token == [token[0]] + token[1..];
    }
  }

  lemma {:induction false} SplitPointer(keys: seq<string>)
    requires keys != []
    ensures Split(PointerText(keys)) == EscapeAll(keys)
  {
    EscapeHasNoSlash(keys[0]);
    if |keys| == 1 {
      SplitToken(Escape(keys[0]), []);
      assert Escape(keys[0]) + [] == Escape(keys[0]);
    } else {
      SplitToken(Escape(keys[0]), PointerText(keys[1..]));
      SplitPointer(keys[1..]);
    }
  }

  lemma {:induction false} UnescapeEscapeAll(keys: seq<string>)
    ensures UnescapeAll(EscapeAll(keys)) == keys
  {
    if keys != [] {
      UnescapeEscape(keys[0]);
      UnescapeEscapeAll(keys[1..]);
      assert EscapeAll(keys)[1..] == EscapeAll(keys[1..]);
      assert keys == [keys[0]] + keys[1..];
    }
  }

  /** Every path into the document has a reference, and the reference follows exactly that path. */
  lemma ReferenceFollowsPath(root: Json, keys: seq<string>)
    requires keys != []
    ensures Resolve(root, "#/" + PointerText(keys)) == Walk(root, keys)
  {
    SplitPointer(keys);
    UnescapeEscapeAll(keys);
    assert ("#/" + PointerText(keys))[2..] == PointerText(keys);
  }

  // ---- the keywords of a schema object ----

  datatype Keywords = Keywords(
    ref: Option<string>,
    constant: Option<Json>,
    choices: Option<seq<Json>>,
    allOf: seq<Json>,
    anyOf: Option<seq<Json>>,
    oneOf: Option<seq<Json>>,
    negated: Option<Json>,
    types: seq<string>,
    minProperties: Option<real>,
    maxProperties: Option<real>,
    required: seq<string>,
    properties: seq<Field>,
    additional: Option<Json>,
    minItems: Option<real>,
    maxItems: Option<real>,
    unique: bool,
    items: Option<Json>,
    minLength: Option<real>,
    maxLength: Option<real>,
    minimum: Option<real>,
    maximum: Option<real>,
    exclusiveMinimum: Option<real>,
    exclusiveMaximum: Option<real>)

  function AsText(v: Option<Json>): Option<string> {
    if v.Some? && v.value.Str? then Some(v.value.text) else None
  }

  function AsNumber(v: Option<Json>): Option<real> {
    if v.Some? && v.value.Num? then Some(v.value.number) else None
  }

  function AsList(v: Option<Json>): Option<seq<Json>> {
    if v.Some? && v.value.Arr? then Some(v.value.items) else None
  }

  /** The strings of a list; other entries are ignored. */
  function Texts(items: seq<Json>): seq<string> {
    if items == [] then []
    else (if items[0].Str? then [items[0].text] else []) + Texts(items[1..])
  }

  function ReadKeywords(fields: seq<Field>): Keywords {
    var allOf, kind, required := AsList(Lookup(fields, "allOf")), Lookup(fields, "type"), AsList(Lookup(fields, "required"));
    var properties, additional := Lookup(fields, "properties"), Lookup(fields, "additionalProperties");
    Keywords(
      AsText(Lookup(fields, "$ref")),
      Lookup(fields, "const"),
      AsList(Lookup(fields, "enum")),
      if allOf.Some? then allOf.value else [],
      AsList(Lookup(fields, "anyOf")),
      AsList(Lookup(fields, "oneOf")),
      Lookup(fields, "not"),
      if kind.Some? && kind.value.Str? then [kind.value.text] else if AsList(kind).Some? then Texts(AsList(kind).value) else [],
      AsNumber(Lookup(fields, "minProperties")),
      AsNumber(Lookup(fields, "maxProperties")),
      if required.Some? then Texts(required.value) else [],
      if properties.Some? && properties.value.Obj? then properties.value.fields else [],
      if additional.Some? && (additional.value.Bool? || additional.value.Obj?) then additional else None,
      AsNumber(Lookup(fields, "minItems")),
      AsNumber(Lookup(fields, "maxItems")),
      Lookup(fields, "uniqueItems") == Some(Bool(true)),
      Lookup(fields, "items"),
      AsNumber(Lookup(fields, "minLength")),
      AsNumber(Lookup(fields, "maxLength")),
      AsNumber(Lookup(fields, "minimum")),
      AsNumber(Lookup(fields, "maximum")),
      AsNumber(Lookup(fields, "exclusiveMinimum")),
      AsNumber(Lookup(fields, "exclusiveMaximum")))
  }

  // ---- conditions on the value alone ----

  predicate TypeMatches(v: Json, kind: string) {
    match kind
    case "object" => v.Obj?
    case "array" => v.Arr?
    case "string" => v.Str?
    case "number" => v.Num?
    case "integer" =>
      v.Num? && v.number.Floor as real == v.number && -MAX_SAFE_INTEGER <= v.number.Floor <= MAX_SAFE_INTEGER
    case "boolean" => v.Bool?
    case "null" => v.Null?
    case _ => false
  }

  predicate TypesOk(v: Json, k: Keywords) {
    k.types == [] || exists i :: 0 <= i < |k.types| && TypeMatches(v, k.types[i])
  }

  predicate Declares(k: Keywords, kind: string) {
    k.types == [] || kind in k.types
  }

  predicate AtLeast(n: real, bound: Option<real>) {
    bound.Some? ==> n >= bound.value
  }

  predicate AtMost(n: real, bound: Option<real>) {
    bound.Some? ==> n <= bound.value
  }

  predicate ObjectShape(v: Json, k: Keywords) {
    v.Obj? && Declares(k, "object") ==>
      && AtLeast(|v.fields| as real, k.minProperties) && AtMost(|v.fields| as real, k.maxProperties)
      && forall i :: 0 <= i < |k.required| ==> Lookup(v.fields, k.required[i]).Some?
  }

  predicate ArrayShape(v: Json, k: Keywords) {
    v.Arr? && Declares(k, "array") ==> AtLeast(|v.items| as real, k.minItems) && AtMost(|v.items| as real, k.maxItems)
  }

  predicate StringShape(v: Json, k: Keywords) {
    v.Str? && Declares(k, "string") ==>
      AtLeast(|v.text| as real, k.minLength) && AtMost(|v.text| as real, k.maxLength)
  }

  predicate NumberShape(v: Json, k: Keywords) {
    v.Num? && (Declares(k, "number") || Declares(k, "integer")) ==>
      && AtLeast(v.number, k.minimum) && AtMost(v.number, k.maximum)
      && (k.exclusiveMinimum.Some? ==> v.number > k.exclusiveMinimum.value)
      && (k.exclusiveMaximum.Some? ==> v.number < k.exclusiveMaximum.value)
  }

  /** const, enum and uniqueItems as JSON Schema means them. */
  predicate ValuesAllowed(v: Json, k: Keywords) {
    && (k.constant.Some? ==> Same(v, k.constant.value))
    && (k.choices.Some? ==> exists i :: 0 <= i < |k.choices.value| && Same(v, k.choices.value[i]))
  }

  predicate Unique(v: Json, k: Keywords) {
    v.Arr? && Declares(k, "array") && k.unique ==>
      forall i, j :: 0 <= i < j < |v.items| ==> !Same(v.items[i], v.items[j])
  }

  /** The same two as the validator computes them, with its bounded comparison. */
  predicate ValuesAccepted(v: Json, k: Keywords) {
    && (k.constant.Some? ==> JsonEqual(v, k.constant.value, 0))
    && (k.choices.Some? ==> exists i :: 0 <= i < |k.choices.value| && JsonEqual(v, k.choices.value[i], 0))
  }

  predicate UniqueAccepted(v: Json, k: Keywords) {
    v.Arr? && Declares(k, "array") && k.unique ==>
      forall i, j :: 0 <= i < j < |v.items| ==> !JsonEqual(v.items[i], v.items[j], 0)
  }

  predicate Shapes(v: Json, k: Keywords) {
    TypesOk(v, k) && ObjectShape(v, k) && ArrayShape(v, k) && StringShape(v, k) && NumberShape(v, k)
  }

  // ---- the declarative meaning ----

  /** The schema that applies to a member, and whether the member is ruled out altogether. */
  function MemberSchema(k: Keywords, key: string): Option<Json> {
    if Lookup(k.properties, key).Some? then Lookup(k.properties, key) else k.additional
  }

  predicate Forbidden(k: Keywords, key: string) {
    Lookup(k.properties, key).None? && k.additional == Some(Bool(false))
  }

  /** Where $ref leads; a reference to nothing, or to the very schema that holds it, leads nowhere. */
  function Target(root: Json, s: Json, k: Keywords): Option<Json>
    requires k.ref.Some?
  {
    var target := Resolve(root, k.ref.value);
    if target == Some(s) then None else target
  }

  /** There is a derivation of height at most h that the value satisfies the schema. */
  ghost predicate Sat(root: Json, v: Json, s: Json, h: nat)
    decreases h, 1
  {
    h > 0 && (s == Bool(true) || (s.Obj? && SatObject(root, v, s, ReadKeywords(s.fields), h - 1)))
  }

  /** There is a derivation of height at most h that it does not. */
  ghost predicate Unsat(root: Json, v: Json, s: Json, h: nat)
    decreases h, 1
  {
    h > 0 && s != Bool(true) && (s.Obj? ==> UnsatObject(root, v, s, ReadKeywords(s.fields), h - 1))
  }

  /** Keyword by keyword; h is the height left for the subschemas. */
  ghost predicate SatObject(root: Json, v: Json, s: Json, k: Keywords, h: nat)
    decreases h, 7
  {
    && RefSat(root, v, s, k, h) && ValuesAllowed(v, k) && Unique(v, k) && Shapes(v, k)
    && AllSat(root, v, k.allOf, h) && AnySat(root, v, k, h) && OneOfSat(root, v, k, h) && NegatedSat(root, v, k, h)
    && MembersSat(root, v, k, h) && ItemsSat(root, v, k, h)
  }

  ghost predicate UnsatObject(root: Json, v: Json, s: Json, k: Keywords, h: nat)
    decreases h, 7
  {
    || RefUnsat(root, v, s, k, h) || !ValuesAllowed(v, k) || !Unique(v, k) || !Shapes(v, k)
    || SomeUnsat(root, v, k.allOf, h) || AnyUnsat(root, v, k, h) || OneOfUnsat(root, v, k, h) || NegatedUnsat(root, v, k, h)
    || MembersUnsat(root, v, k, h) || ItemsUnsat(root, v, k, h)
  }

  ghost predicate RefSat(root: Json, v: Json, s: Json, k: Keywords, h: nat)
    decreases h, 6
  {
    k.ref.Some? ==> var t := Target(root, s, k); t.Some? && Sat(root, v, t.value, h)
  }

  ghost predicate RefUnsat(root: Json, v: Json, s: Json, k: Keywords, h: nat)
    decreases h, 6
  {
    k.ref.Some? && var t := Target(root, s, k); t.None? || Unsat(root, v, t.value, h)
  }

  ghost predicate AnySat(root: Json, v: Json, k: Keywords, h: nat)
    decreases h, 6
  {
    k.anyOf.Some? ==> SomeSat(root, v, k.anyOf.value, h)
  }

  ghost predicate AnyUnsat(root: Json, v: Json, k: Keywords, h: nat)
    decreases h, 6
  {
    k.anyOf.Some? && AllUnsat(root, v, k.anyOf.value, h)
  }

  ghost predicate OneOfSat(root: Json, v: Json, k: Keywords, h: nat)
    decreases h, 6
  {
    k.oneOf.Some? ==> OneSat(root, v, k.oneOf.value, h)
  }

  ghost predicate OneOfUnsat(root: Json, v: Json, k: Keywords, h: nat)
    decreases h, 6
  {
    k.oneOf.Some? && NotOneSat(root, v, k.oneOf.value, h)
  }

  ghost predicate NegatedSat(root: Json, v: Json, k: Keywords, h: nat)
    decreases h, 6
  {
    k.negated.Some? ==> Unsat(root, v, k.negated.value, h)
  }

  ghost predicate NegatedUnsat(root: Json, v: Json, k: Keywords, h: nat)
    decreases h, 6
  {
    k.negated.Some? && Sat(root, v, k.negated.value, h)
  }

  ghost predicate MembersSat(root: Json, v: Json, k: Keywords, h: nat)
    decreases h, 6
  {
    v.Obj? && Declares(k, "object") ==> forall i :: 0 <= i < |v.fields| ==> MemberSat(root, v.fields[i], k, h)
  }

  ghost predicate MembersUnsat(root: Json, v: Json, k: Keywords, h: nat)
    decreases h, 6
  {
    v.Obj? && Declares(k, "object") && exists i :: 0 <= i < |v.fields| && MemberUnsat(root, v.fields[i], k, h)
  }

  predicate ItemsApply(v: Json, k: Keywords) {
    v.Arr? && Declares(k, "array") && k.items.Some?
  }

  ghost predicate ItemsSat(root: Json, v: Json, k: Keywords, h: nat)
    decreases h, 6
  {
    ItemsApply(v, k) ==> forall i :: 0 <= i < |v.items| ==> Sat(root, v.items[i], k.items.value, h)
  }

  ghost predicate ItemsUnsat(root: Json, v: Json, k: Keywords, h: nat)
    decreases h, 6
  {
    ItemsApply(v, k) && exists i :: 0 <= i < |v.items| && Unsat(root, v.items[i], k.items.value, h)
  }

  ghost predicate AllSat(root: Json, v: Json, branches: seq<Json>, h: nat)
    decreases h, 2
  {
    forall i :: 0 <= i < |branches| ==> Sat(root, v, branches[i], h)
  }

  ghost predicate SomeSat(root: Json, v: Json, branches: seq<Json>, h: nat)
    decreases h, 2
  {
    exists i :: 0 <= i < |branches| && Sat(root, v, branches[i], h)
  }

  ghost predicate SomeUnsat(root: Json, v: Json, branches: seq<Json>, h: nat)
    decreases h, 2
  {
    exists i :: 0 <= i < |branches| && Unsat(root, v, branches[i], h)
  }

  ghost predicate AllUnsat(root: Json, v: Json, branches: seq<Json>, h: nat)
    decreases h, 2
  {
    forall i :: 0 <= i < |branches| ==> Unsat(root, v, branches[i], h)
  }

  ghost predicate OneSat(root: Json, v: Json, branches: seq<Json>, h: nat)
    decreases h, 3
  {
    exists i :: 0 <= i < |branches| && OnlySat(root, v, branches, h, i)
  }

  ghost predicate OnlySat(root: Json, v: Json, branches: seq<Json>, h: nat, i: nat)
    requires i < |branches|
    decreases h, 2
  {
    Sat(root, v, branches[i], h) && forall j :: 0 <= j < |branches| && j != i ==> Unsat(root, v, branches[j], h)
  }

  ghost predicate TwoSat(root: Json, v: Json, branches: seq<Json>, h: nat)
    decreases h, 2
  {
    exists i, j :: 0 <= i < j < |branches| && Sat(root, v, branches[i], h) && Sat(root, v, branches[j], h)
  }

  ghost predicate NotOneSat(root: Json, v: Json, branches: seq<Json>, h: nat)
    decreases h, 3
  {
    AllUnsat(root, v, branches, h) || TwoSat(root, v, branches, h)
  }

  ghost predicate MemberSat(root: Json, f: Field, k: Keywords, h: nat)
    decreases h, 2
  {
    !Forbidden(k, f.key) && var m := MemberSchema(k, f.key); m.Some? ==> Sat(root, f.value, m.value, h)
  }

  ghost predicate MemberUnsat(root: Json, f: Field, k: Keywords, h: nat)
    decreases h, 2
  {
    Forbidden(k, f.key) || var m := MemberSchema(k, f.key); m.Some? && Unsat(root, f.value, m.value, h)
  }

  /** No derivation of height h that a value satisfies a schema meets one of height g that it does not. */
  ghost predicate Excludes(root: Json, h: nat, g: nat) {
    forall x: Json, t: Json :: Sat(root, x, t, h) ==> !Unsat(root, x, t, g)
  }

  /** No value both satisfies and violates a schema, whatever the heights of the derivations. */
  lemma {:induction false} MeaningIsConsistent(root: Json, h: nat, g: nat)
    ensures Excludes(root, h, g)
    decreases h + g
  {
    hide ReadKeywords, SatObject, UnsatObject;
    if h > 0 && g > 0 {
      MeaningIsConsistent(root, h - 1, g - 1);
      MeaningIsConsistent(root, g - 1, h - 1);
      forall x: Json, t: Json | Sat(root, x, t, h) ensures !Unsat(root, x, t, g) {
        if t.Obj? { ObjectMeaningIsConsistent(root, x, t, ReadKeywords(t.fields), h - 1, g - 1); }
      }
    }
  }

  lemma ObjectMeaningIsConsistent(root: Json, v: Json, s: Json, k: Keywords, h: nat, g: nat)
    requires Excludes(root, h, g) && Excludes(root, g, h)
    ensures SatObject(root, v, s, k, h) ==> !UnsatObject(root, v, s, k, g)
  {
    hide Sat, Unsat, ReadKeywords, ValuesAllowed, Unique, Shapes, AllSat, SomeUnsat, OneOfSat, OneOfUnsat, RefSat, RefUnsat,
         AnySat, AnyUnsat, NegatedSat, NegatedUnsat, MembersSat, MembersUnsat, ItemsSat, ItemsUnsat, Excludes;
    AllIsConsistent(root, v, k.allOf, h, g);
    AnyIsConsistent(root, v, k, h, g);
    OneOfIsConsistent(root, v, k, h, g);
    MembersAreConsistent(root, v, k, h, g);
    ItemsAreConsistent(root, v, k, h, g);
    OthersAreConsistent(root, v, s, k, h, g);
  }

  lemma OthersAreConsistent(root: Json, v: Json, s: Json, k: Keywords, h: nat, g: nat)
    requires Excludes(root, h, g) && Excludes(root, g, h)
    ensures RefSat(root, v, s, k, h) ==> !RefUnsat(root, v, s, k, g)
    ensures NegatedSat(root, v, k, h) ==> !NegatedUnsat(root, v, k, g)
  {
    hide SatObject, UnsatObject, ReadKeywords, Resolve;
    assert k.negated.Some? ==> (Sat(root, v, k.negated.value, g) ==> !Unsat(root, v, k.negated.value, h));
    assert k.ref.Some? && Target(root, s, k).Some? ==>
      (Sat(root, v, Target(root, s, k).value, h) ==> !Unsat(root, v, Target(root, s, k).value, g));
  }

  lemma MembersAreConsistent(root: Json, v: Json, k: Keywords, h: nat, g: nat)
    requires Excludes(root, h, g)
    ensures MembersSat(root, v, k, h) ==> !MembersUnsat(root, v, k, g)
  {
    hide MemberSat, MemberUnsat, Excludes;
    if v.Obj? {
      forall i | 0 <= i < |v.fields| ensures MemberSat(root, v.fields[i], k, h) ==> !MemberUnsat(root, v.fields[i], k, g) {
        MemberIsConsistent(root, v.fields[i], k, h, g);
      }
    }
  }

  lemma ItemsAreConsistent(root: Json, v: Json, k: Keywords, h: nat, g: nat)
    requires Excludes(root, h, g)
    ensures ItemsSat(root, v, k, h) ==> !ItemsUnsat(root, v, k, g)
  {
    hide SatObject, UnsatObject, ReadKeywords;
    if ItemsApply(v, k) {
      forall i | 0 <= i < |v.items| ensures Sat(root, v.items[i], k.items.value, h) ==> !Unsat(root, v.items[i], k.items.value, g) {}
    }
  }

  lemma MemberIsConsistent(root: Json, f: Field, k: Keywords, h: nat, g: nat)
    requires Excludes(root, h, g)
    ensures MemberSat(root, f, k, h) ==> !MemberUnsat(root, f, k, g)
  {
    hide SatObject, UnsatObject, ReadKeywords;
    var m := MemberSchema(k, f.key);
    assert m.Some? ==> (Sat(root, f.value, m.value, h) ==> !Unsat(root, f.value, m.value, g));
  }

  lemma AllIsConsistent(root: Json, v: Json, branches: seq<Json>, h: nat, g: nat)
    requires Excludes(root, h, g)
    ensures AllSat(root, v, branches, h) ==> !SomeUnsat(root, v, branches, g)
    ensures SomeSat(root, v, branches, h) ==> !AllUnsat(root, v, branches, g)
  {
    hide SatObject, UnsatObject, ReadKeywords;
    forall i | 0 <= i < |branches| ensures Sat(root, v, branches[i], h) ==> !Unsat(root, v, branches[i], g) {}
  }

  lemma AnyIsConsistent(root: Json, v: Json, k: Keywords, h: nat, g: nat)
    requires Excludes(root, h, g)
    ensures AnySat(root, v, k, h) ==> !AnyUnsat(root, v, k, g)
  {
    hide SomeSat, AllUnsat;
    if k.anyOf.Some? { AllIsConsistent(root, v, k.anyOf.value, h, g); }
  }

  lemma TheOne(root: Json, v: Json, branches: seq<Json>, h: nat) returns (i: nat)
    requires OneSat(root, v, branches, h)
    ensures i < |branches| && OnlySat(root, v, branches, h, i)
  {
    hide SatObject, UnsatObject, ReadKeywords;
    i :| 0 <= i < |branches| && OnlySat(root, v, branches, h, i);
  }

  lemma OneIsConsistent(root: Json, v: Json, branches: seq<Json>, h: nat, g: nat)
    requires Excludes(root, h, g) && Excludes(root, g, h)
    ensures OneSat(root, v, branches, h) ==> !NotOneSat(root, v, branches, g)
  {
    hide Sat, Unsat, OnlySat;
    if OneSat(root, v, branches, h) {
      var i := TheOne(root, v, branches, h);
      OnlyOne(root, v, branches, h, g, i);
    }
  }

  lemma OneOfIsConsistent(root: Json, v: Json, k: Keywords, h: nat, g: nat)
    requires Excludes(root, h, g) && Excludes(root, g, h)
    ensures OneOfSat(root, v, k, h) ==> !OneOfUnsat(root, v, k, g)
  {
    if k.oneOf.Some? { OneIsConsistent(root, v, k.oneOf.value, h, g); }
  }

  lemma OnlyOne(root: Json, v: Json, branches: seq<Json>, h: nat, g: nat, i: nat)
    requires Excludes(root, g, h) && Excludes(root, h, g) && i < |branches| && OnlySat(root, v, branches, h, i)
    ensures !TwoSat(root, v, branches, g) && !AllUnsat(root, v, branches, g)
  {
    hide SatObject, UnsatObject, ReadKeywords;
    assert !Unsat(root, v, branches[i], g);
    forall a | 0 <= a < |branches| && a != i ensures !Sat(root, v, branches[a], g) {
      assert Unsat(root, v, branches[a], h);
    }
  }
}
