/**
 * The validator with its shared mutable counter and its loops, refining the run of
 * SchemaValidator step by step.
 */
module SchemaState {
  import opened Common
  import opened ToolSchema
  import V = SchemaValidator

  /** jsonEqual over the candidates of an enum. */
  method SomeEqual(v: Json, candidates: seq<Json>) returns (found: bool)
    ensures found <==> exists i :: 0 <= i < |candidates| && JsonEqual(v, candidates[i], 0)
  {
    hide JsonEqual;
    for i := 0 to |candidates|
      invariant forall j :: 0 <= j < i ==> !JsonEqual(v, candidates[j], 0)
    {
      if JsonEqual(v, candidates[i], 0) {
        return true;
      }
    }
    return false;
  }

  /** const, then enum */
  method ValueAccepted(v: Json, k: Keywords) returns (ok: bool)
    ensures ok == ValuesAccepted(v, k)
  {
    hide JsonEqual;
    if k.constant.Some? && !JsonEqual(v, k.constant.value, 0) {
      return false;
    }
    ok := true;
    if k.choices.Some? {
      ok := SomeEqual(v, k.choices.value);
    }
  }

  /** The nested loops of uniqueItems. */
  method Repetition(items: seq<Json>) returns (found: bool)
    ensures found <==> exists i, j :: 0 <= i < j < |items| && JsonEqual(items[i], items[j], 0)
  {
    hide JsonEqual;
    for index := 0 to |items|
      invariant forall i, j :: 0 <= i < index && i < j < |items| ==> !JsonEqual(items[i], items[j], 0)
    {
      for other := index + 1 to |items|
        invariant forall j :: index < j < other ==> !JsonEqual(items[index], items[j], 0)
      {
        if JsonEqual(items[index], items[other], 0) {
          return true;
        }
      }
    }
    return false;
  }

  class ValidationState {
    const root: Json
    var nodes: nat
    ghost var hit: bool
    ghost var unsafe: bool
    ghost var limited: bool

    constructor (root: Json)
      ensures this.root == root && State() == V.START
    {
      this.root, nodes, hit, unsafe, limited := root, 0, false, false, false;
    }

    ghost function State(): V.State
      reads this
    {
      V.State(nodes, hit, unsafe, limited)
    }

    method Validate(v: Json, s: Json, depth: nat) returns (ok: bool)
      requires depth <= V.DEPTHS
      modifies this
      ensures V.Outcome(ok, State()) == V.Validate(root, v, s, old(State()), depth)
      decreases V.DEPTHS - depth, 9
    {
      hide V.RunObject, ReadKeywords;
      if depth > MAX_SCHEMA_DEPTH {
        hit, limited := true, true;
        return false;
      }
      nodes := nodes + 1;
      if nodes > MAX_VALIDATION_NODES {
        hit, limited := true, true;
        return false;
      }
      if s == Bool(true) {
        return true;
      }
      if !s.Obj? {
        return false;
      }
      ok := ValidateObject(v, s, ReadKeywords(s.fields), depth);
    }

    method ValidateObject(v: Json, s: Json, k: Keywords, depth: nat) returns (ok: bool)
      requires depth <= MAX_SCHEMA_DEPTH
      modifies this
      ensures V.Outcome(ok, State()) == V.RunObject(root, v, s, k, old(State()), depth)
      decreases V.DEPTHS - depth, 8
    {
      hide V.RunRef, V.RunBranches, V.RunStructure, V.ComparesDeep, ValuesAccepted;
      ok := ValidateReference(v, s, k, depth);
      if ok {
        hit := hit || V.ComparesDeep(v, k);
        ok := ValueAccepted(v, k);
      }
      if ok {
        ok := ValidateBranches(v, k, depth);
      }
      if ok {
        ok := ValidateStructure(v, k, depth);
      }
    }

    method ValidateReference(v: Json, s: Json, k: Keywords, depth: nat) returns (ok: bool)
      requires depth <= MAX_SCHEMA_DEPTH
      modifies this
      ensures V.Outcome(ok, State()) == V.RunRef(root, v, s, k, old(State()), depth)
      decreases V.DEPTHS - depth, 7
    {
      hide V.Validate, Resolve;
      if k.ref.None? {
        return true;
      }
      var target := LocalReference(root, k.ref.value);
      if target.None? || target.value == s {
        return false;
      }
      ok := Validate(v, target.value, depth + 1);
    }

    method ValidateBranches(v: Json, k: Keywords, depth: nat) returns (ok: bool)
      requires depth <= MAX_SCHEMA_DEPTH
      modifies this
      ensures V.Outcome(ok, State()) == V.RunBranches(root, v, k, old(State()), depth)
      decreases V.DEPTHS - depth, 7
    {
      hide V.RunPlain, V.RunOneOf, V.RunNot;
      ok := ValidateAllAndAny(v, k, depth);
      if ok {
        ok := ValidateOneOf(v, k, depth);
      }
      if ok {
        ok := ValidateNot(v, k, depth);
      }
    }

    method ValidateAllAndAny(v: Json, k: Keywords, depth: nat) returns (ok: bool)
      requires depth <= MAX_SCHEMA_DEPTH
      modifies this
      ensures V.Outcome(ok, State()) == V.RunPlain(root, v, k, old(State()), depth)
      decreases V.DEPTHS - depth, 6
    {
      hide V.RunAll, V.RunAny;
      ok := Every(v, k.allOf, depth);
      if ok && k.anyOf.Some? {
        ok := AtLeastOne(v, k.anyOf.value, depth);
      }
    }

    method ValidateOneOf(v: Json, k: Keywords, depth: nat) returns (ok: bool)
      requires depth <= MAX_SCHEMA_DEPTH
      modifies this
      ensures V.Outcome(ok, State()) == V.RunOneOf(root, v, k, old(State()), depth)
      decreases V.DEPTHS - depth, 6
    {
      hide V.RunCount;
      ok := true;
      if k.oneOf.Some? {
        ghost var before := State();
        hit, unsafe, limited := false, false, false;
        var matches := Matches(v, k.oneOf.value, depth);
        hit, unsafe, limited := before.hit || hit, before.unsafe || hit || unsafe, before.limited || limited;
        ok := matches == 1;
      }
    }

    method ValidateNot(v: Json, k: Keywords, depth: nat) returns (ok: bool)
      requires depth <= MAX_SCHEMA_DEPTH
      modifies this
      ensures V.Outcome(ok, State()) == V.RunNot(root, v, k, old(State()), depth)
      decreases V.DEPTHS - depth, 6
    {
      hide V.Validate;
      ok := true;
      if k.negated.Some? {
        ghost var before := State();
        hit, unsafe, limited := false, false, false;
        var matched := Validate(v, k.negated.value, depth + 1);
        hit, unsafe, limited := before.hit || hit, before.unsafe || hit || unsafe, before.limited || limited;
        ok := !matched;
      }
    }

    method Every(v: Json, branches: seq<Json>, depth: nat) returns (ok: bool)
      requires depth <= MAX_SCHEMA_DEPTH
      modifies this
      ensures V.Outcome(ok, State()) == V.RunAll(root, v, branches, old(State()), depth)
      decreases V.DEPTHS - depth, 5
    {
      hide V.Validate;
      ghost var all := V.RunAll(root, v, branches, State(), depth);
      for i := 0 to |branches|
        invariant all == V.RunAll(root, v, branches[i..], State(), depth)
      {
        assert branches[i..][1..] == branches[i + 1..];
        ok := Validate(v, branches[i], depth + 1);
        if !ok {
          return;
        }
      }
      ok := true;
    }

    method AtLeastOne(v: Json, branches: seq<Json>, depth: nat) returns (ok: bool)
      requires depth <= MAX_SCHEMA_DEPTH
      modifies this
      ensures V.Outcome(ok, State()) == V.RunAny(root, v, branches, old(State()), depth)
      decreases V.DEPTHS - depth, 5
    {
      hide V.Validate;
      ghost var any := V.RunAny(root, v, branches, State(), depth);
      for i := 0 to |branches|
        invariant any == V.RunAny(root, v, branches[i..], State(), depth)
      {
        assert branches[i..][1..] == branches[i + 1..];
        ok := Validate(v, branches[i], depth + 1);
        if ok {
          return;
        }
      }
      ok := false;
    }

    method Matches(v: Json, branches: seq<Json>, depth: nat) returns (matches: nat)
      requires depth <= MAX_SCHEMA_DEPTH
      modifies this
      ensures V.Count(matches, State()) == V.RunCount(root, v, branches, old(State()), depth)
      decreases V.DEPTHS - depth, 5
    {
      hide V.Validate;
      ghost var all := V.RunCount(root, v, branches, State(), depth);
      matches := 0;
      for i := 0 to |branches|
        invariant var rest := V.RunCount(root, v, branches[i..], State(), depth);
                  all == V.Count(matches + rest.matches, rest.state)
      {
        assert branches[i..][1..] == branches[i + 1..];
        var matched := Validate(v, branches[i], depth + 1);
        matches := matches + if matched then 1 else 0;
      }
    }

    method ValidateStructure(v: Json, k: Keywords, depth: nat) returns (ok: bool)
      requires depth <= MAX_SCHEMA_DEPTH
      modifies this
      ensures V.Outcome(ok, State()) == V.RunStructure(root, v, k, old(State()), depth)
      decreases V.DEPTHS - depth, 7
    {
      hide V.RunMembers, V.RunItems, TypesOk, ObjectShape, ArrayShape, StringShape, NumberShape, Declares, V.ComparesDeepItems, JsonEqual;
      if !TypesOk(v, k) || !ObjectShape(v, k) {
        return false;
      }
      if v.Obj? && Declares(k, "object") {
        ok := Members(v.fields, k, depth);
        if !ok {
          return;
        }
      }
      if !ArrayShape(v, k) {
        return false;
      }
      ghost var deep := V.ComparesDeepItems(v, k);
      hit, unsafe := hit || deep, unsafe || deep;
      if v.Arr? && Declares(k, "array") && k.unique {
        var repeated := Repetition(v.items);
        if repeated {
          return false;
        }
      }
      if v.Arr? && Declares(k, "array") && k.items.Some? {
        ok := Items(v.items, k.items.value, depth);
        if !ok {
          return;
        }
      }
      ok := StringShape(v, k) && NumberShape(v, k);
    }

    method Members(fields: seq<Field>, k: Keywords, depth: nat) returns (ok: bool)
      requires depth <= MAX_SCHEMA_DEPTH
      modifies this
      ensures V.Outcome(ok, State()) == V.RunMembers(root, fields, k, old(State()), depth)
      decreases V.DEPTHS - depth, 5
    {
      hide V.Validate, Lookup;
      ghost var all := V.RunMembers(root, fields, k, State(), depth);
      for i := 0 to |fields|
        invariant all == V.RunMembers(root, fields[i..], k, State(), depth)
      {
        assert fields[i..][1..] == fields[i + 1..];
        var key := fields[i].key;
        var declared := Lookup(k.properties, key);
        if declared.Some? {
          ok := Validate(fields[i].value, declared.value, depth + 1);
          if !ok {
            return;
          }
          continue;
        }
        if k.additional == Some(Bool(false)) {
          return false;
        }
        if k.additional.Some? {
          ok := Validate(fields[i].value, k.additional.value, depth + 1);
          if !ok {
            return;
          }
        }
      }
      ok := true;
    }

    method Items(items: seq<Json>, s: Json, depth: nat) returns (ok: bool)
      requires depth <= MAX_SCHEMA_DEPTH
      modifies this
      ensures V.Outcome(ok, State()) == V.RunItems(root, items, s, old(State()), depth)
      decreases V.DEPTHS - depth, 5
    {
      hide V.Validate;
      ghost var all := V.RunItems(root, items, s, State(), depth);
      for i := 0 to |items|
        invariant all == V.RunItems(root, items[i..], s, State(), depth)
      {
        assert items[i..][1..] == items[i + 1..];
        ok := Validate(items[i], s, depth + 1);
        if !ok {
          return;
        }
      }
      ok := true;
    }
  }

  // ---- validateToolArguments ----

  /** The function description of a tool, which may sit at the top or under `function`. */
  function Description(fields: seq<Field>): seq<Field> {
    var f := Lookup(fields, "function");
    if f.Some? && f.value.Obj? then f.value.fields else fields
  }

  predicate Declared(tool: Json, name: string) {
    tool.Obj? && Lookup(Description(tool.fields), "name") == Some(Str(name))
  }

  const ANY_OBJECT := Obj([Field("type", Str("object"))])

  function Parameters(tool: Json): Json
    requires tool.Obj?
  {
    var p := Lookup(Description(tool.fields), "parameters");
    if p.None? || p.value.Null? then ANY_OBJECT else p.value
  }

  /** parametersFor: the parameters of the first tool with this name. */
  method ParametersFor(name: string, tools: seq<Json>) returns (schema: Option<Json>)
    ensures schema.None? ==> forall i :: 0 <= i < |tools| ==> !Declared(tools[i], name)
    ensures schema.Some? ==>
      exists i :: 0 <= i < |tools| && Declared(tools[i], name) && schema.value == Parameters(tools[i])
                  && forall j :: 0 <= j < i ==> !Declared(tools[j], name)
  {
    hide Lookup;
    for i := 0 to |tools|
      invariant forall j :: 0 <= j < i ==> !Declared(tools[j], name)
    {
      if Declared(tools[i], name) {
        return Some(Parameters(tools[i]));
      }
    }
    return None;
  }

  /** The arguments are an object, and the first tool of that name accepts it. */
  ghost predicate Accepted(name: string, parsed: Option<Json>, tools: seq<Json>) {
    && parsed.Some? && parsed.value.Obj?
    && exists i :: 0 <= i < |tools| && Declared(tools[i], name) && V.Verdict(Parameters(tools[i]), parsed.value).ok
                   && forall j :: 0 <= j < i ==> !Declared(tools[j], name)
  }

  /** validateToolArguments, where `parsed` is what JSON.parse makes of the text. */
  method ValidateToolArguments(name: string, parsed: Option<Json>, tools: seq<Json>) returns (ok: bool)
    ensures ok <==> Accepted(name, parsed, tools)
  {
    hide V.Verdict, Declared, Parameters;
    var schema := ParametersFor(name, tools);
    if schema.None? || parsed.None? || !parsed.value.Obj? {
      return false;
    }
    ok := Judge(schema.value, parsed.value);
  }

  /** The schema is its own root. */
  method Judge(schema: Json, v: Json) returns (ok: bool)
    ensures ok == V.Verdict(schema, v).ok
  {
    var state := new ValidationState(schema);
    ok := state.Validate(v, schema, 0);
  }
}
