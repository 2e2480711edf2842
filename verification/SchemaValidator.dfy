/**
 * The validator's run: one counter of visited nodes shared by the whole recursion, a depth
 * limit, and short-circuiting in keyword order, against the meaning given in ToolSchema.
 *
 * Beside the counter a run records three observations that the source does not keep: `limited`,
 * the depth or the node limit cut an answer short; `hit`, one of them did, or a value nested too
 * deep was compared; `unsafe`, that happened where the answer is negated (under `not`, inside
 * `oneOf`, or in the comparison of `uniqueItems`).
 */
module SchemaValidator {
  import opened Common
  import opened ToolSchema

  const DEPTHS := MAX_SCHEMA_DEPTH + 1

  datatype State = State(nodes: nat, hit: bool, unsafe: bool, limited: bool)

  datatype Outcome = Outcome(ok: bool, state: State)

  datatype Count = Count(matches: nat, state: State)

  const START := State(0, false, false, false)

  function Validate(root: Json, v: Json, s: Json, st: State, depth: nat): Outcome
    requires depth <= DEPTHS
    decreases DEPTHS - depth, 10
  {
    if depth > MAX_SCHEMA_DEPTH then Outcome(false, st.(hit := true, limited := true))
    else
      var next := st.(nodes := st.nodes + 1);
      if next.nodes > MAX_VALIDATION_NODES then Outcome(false, next.(hit := true, limited := true))
      else if s == Bool(true) then Outcome(true, next)
      else if !s.Obj? then Outcome(false, next)
      else RunObject(root, v, s, ReadKeywords(s.fields), next, depth)
  }

  function RunObject(root: Json, v: Json, s: Json, k: Keywords, st: State, depth: nat): Outcome
    requires depth <= MAX_SCHEMA_DEPTH
    decreases DEPTHS - depth, 9
  {
    var o := RunRef(root, v, s, k, st, depth);
    if !o.ok then o else RunRest(root, v, k, o.state, depth)
  }

  /** Everything after $ref. */
  function RunRest(root: Json, v: Json, k: Keywords, st: State, depth: nat): Outcome
    requires depth <= MAX_SCHEMA_DEPTH
    decreases DEPTHS - depth, 8
  {
    var t := Compared(st, v, k);
    if !ValuesAccepted(v, k) then Outcome(false, t)
    else
      var p := RunBranches(root, v, k, t, depth);
      if !p.ok then p else RunStructure(root, v, k, p.state, depth)
  }

  function RunRef(root: Json, v: Json, s: Json, k: Keywords, st: State, depth: nat): Outcome
    requires depth <= MAX_SCHEMA_DEPTH
    decreases DEPTHS - depth, 7
  {
    if k.ref.None? then Outcome(true, st)
    else
      var t := Target(root, s, k);
      if t.None? then Outcome(false, st) else Validate(root, v, t.value, st, depth + 1)
  }

  /** const and enum compare the value itself; the bounded comparison does not see all of a deep one. */
  predicate ComparesDeep(v: Json, k: Keywords) {
    (k.constant.Some? || k.choices.Some?) && !Shallow(v, 0)
  }

  /** uniqueItems compares the items with each other. */
  predicate ComparesDeepItems(v: Json, k: Keywords) {
    v.Arr? && Declares(k, "array") && k.unique && exists i :: 0 <= i < |v.items| && !Shallow(v.items[i], 0)
  }

  function Compared(st: State, v: Json, k: Keywords): State {
    st.(hit := st.hit || ComparesDeep(v, k))
  }

  function ComparedItems(st: State, v: Json, k: Keywords): State {
    st.(hit := st.hit || ComparesDeepItems(v, k), unsafe := st.unsafe || ComparesDeepItems(v, k))
  }

  function RunBranches(root: Json, v: Json, k: Keywords, st: State, depth: nat): Outcome
    requires depth <= MAX_SCHEMA_DEPTH
    decreases DEPTHS - depth, 7
  {
    var plain := RunPlain(root, v, k, st, depth);
    if !plain.ok then plain
    else
      var one := RunOneOf(root, v, k, plain.state, depth);
      if !one.ok then one else RunNot(root, v, k, one.state, depth)
  }

  /** allOf, then anyOf */
  function RunPlain(root: Json, v: Json, k: Keywords, st: State, depth: nat): Outcome
    requires depth <= MAX_SCHEMA_DEPTH
    decreases DEPTHS - depth, 6
  {
    var all := RunAll(root, v, k.allOf, st, depth);
    if !all.ok || k.anyOf.None? then all else RunAny(root, v, k.anyOf.value, all.state, depth)
  }

  function RunAll(root: Json, v: Json, branches: seq<Json>, st: State, depth: nat): Outcome
    requires depth <= MAX_SCHEMA_DEPTH
    decreases DEPTHS - depth, 5, |branches|
  {
    if branches == [] then Outcome(true, st)
    else
      var o := Validate(root, v, branches[0], st, depth + 1);
      if !o.ok then o else RunAll(root, v, branches[1..], o.state, depth)
  }

  function RunAny(root: Json, v: Json, branches: seq<Json>, st: State, depth: nat): Outcome
    requires depth <= MAX_SCHEMA_DEPTH
    decreases DEPTHS - depth, 5, |branches|
  {
    if branches == [] then Outcome(false, st)
    else
      var o := Validate(root, v, branches[0], st, depth + 1);
      if o.ok then o else RunAny(root, v, branches[1..], o.state, depth)
  }

  /** A run whose answer will be negated: what was cut short inside it is unsafe. */
  function Inside(st: State): State {
    State(st.nodes, false, false, false)
  }

  function Leave(st: State, inner: State): State {
    State(inner.nodes, st.hit || inner.hit, st.unsafe || inner.hit || inner.unsafe, st.limited || inner.limited)
  }

  function RunCount(root: Json, v: Json, branches: seq<Json>, st: State, depth: nat): Count
    requires depth <= MAX_SCHEMA_DEPTH
    decreases DEPTHS - depth, 5, |branches|
  {
    if branches == [] then Count(0, st)
    else
      var o := Validate(root, v, branches[0], st, depth + 1);
      var c := RunCount(root, v, branches[1..], o.state, depth);
      Count(c.matches + if o.ok then 1 else 0, c.state)
  }

  function RunOneOf(root: Json, v: Json, k: Keywords, st: State, depth: nat): Outcome
    requires depth <= MAX_SCHEMA_DEPTH
    decreases DEPTHS - depth, 6
  {
    if k.oneOf.None? then Outcome(true, st)
    else
      var c := RunCount(root, v, k.oneOf.value, Inside(st), depth);
      Outcome(c.matches == 1, Leave(st, c.state))
  }

  function RunNot(root: Json, v: Json, k: Keywords, st: State, depth: nat): Outcome
    requires depth <= MAX_SCHEMA_DEPTH
    decreases DEPTHS - depth, 6
  {
    if k.negated.None? then Outcome(true, st)
    else
      var o := Validate(root, v, k.negated.value, Inside(st), depth + 1);
      Outcome(!o.ok, Leave(st, o.state))
  }

  function RunStructure(root: Json, v: Json, k: Keywords, st: State, depth: nat): Outcome
    requires depth <= MAX_SCHEMA_DEPTH
    decreases DEPTHS - depth, 7
  {
    if !TypesOk(v, k) || !ObjectShape(v, k) then Outcome(false, st)
    else
      var members := if v.Obj? && Declares(k, "object") then RunMembers(root, v.fields, k, st, depth) else Outcome(true, st);
      if !members.ok then members else RunArray(root, v, k, members.state, depth)
  }

  /** Arrays, then the leaves. */
  function RunArray(root: Json, v: Json, k: Keywords, st: State, depth: nat): Outcome
    requires depth <= MAX_SCHEMA_DEPTH
    decreases DEPTHS - depth, 6
  {
    if !ArrayShape(v, k) then Outcome(false, st)
    else
      var t := ComparedItems(st, v, k);
      if !UniqueAccepted(v, k) then Outcome(false, t)
      else
        var items := if ItemsApply(v, k) then RunItems(root, v.items, k.items.value, t, depth) else Outcome(true, t);
        if !items.ok then items else Outcome(StringShape(v, k) && NumberShape(v, k), items.state)
  }

  function RunMember(root: Json, f: Field, k: Keywords, st: State, depth: nat): Outcome
    requires depth <= MAX_SCHEMA_DEPTH
    decreases DEPTHS - depth, 4
  {
    var m := MemberSchema(k, f.key);
    if Forbidden(k, f.key) then Outcome(false, st)
    else if m.None? then Outcome(true, st)
    else Validate(root, f.value, m.value, st, depth + 1)
  }

  function RunMembers(root: Json, fields: seq<Field>, k: Keywords, st: State, depth: nat): Outcome
    requires depth <= MAX_SCHEMA_DEPTH
    decreases DEPTHS - depth, 5, |fields|
  {
    if fields == [] then Outcome(true, st)
    else
      var o := RunMember(root, fields[0], k, st, depth);
      if !o.ok then o else RunMembers(root, fields[1..], k, o.state, depth)
  }

  function RunItems(root: Json, items: seq<Json>, s: Json, st: State, depth: nat): Outcome
    requires depth <= MAX_SCHEMA_DEPTH
    decreases DEPTHS - depth, 5, |items|
  {
    if items == [] then Outcome(true, st)
    else
      var o := Validate(root, items[0], s, st, depth + 1);
      if !o.ok then o else RunItems(root, items[1..], s, o.state, depth)
  }

  // ---- soundness of a run ----

  /** The run's observations only accumulate, and no node is uncounted. */
  predicate Later(st: State, t: State) {
    st.nodes <= t.nodes && (st.hit ==> t.hit) && (st.unsafe ==> t.unsafe) && ((st.unsafe ==> st.hit) ==> t.unsafe ==> t.hit)
  }

  /** An uncut answer is right; a positive one is right already when nothing unsafe was cut. */
  predicate Right(o: Outcome, st: State, sat: bool, unsat: bool) {
    && Later(st, o.state)
    && (o.ok && !o.state.unsafe ==> sat)
    && (!o.ok && !o.state.hit ==> unsat)
  }

  predicate Consistent(st: State) {
    st.unsafe ==> st.hit
  }

  lemma {:induction false} ValidateIsRight(root: Json, v: Json, s: Json, st: State, depth: nat)
    requires depth <= DEPTHS && Consistent(st)
    ensures Right(Validate(root, v, s, st, depth), st, Sat(root, v, s, DEPTHS - depth), Unsat(root, v, s, DEPTHS - depth))
    decreases DEPTHS - depth, 10
  {
    hide RunObject, ReadKeywords, SatObject, UnsatObject;
    if depth <= MAX_SCHEMA_DEPTH && st.nodes + 1 <= MAX_VALIDATION_NODES && s.Obj? {
      ObjectIsRight(root, v, s, ReadKeywords(s.fields), st.(nodes := st.nodes + 1), depth);
    }
  }

  lemma {:induction false} RefIsRight(root: Json, v: Json, s: Json, k: Keywords, st: State, depth: nat)
    requires depth <= MAX_SCHEMA_DEPTH && Consistent(st)
    ensures Right(RunRef(root, v, s, k, st, depth), st,
                  RefSat(root, v, s, k, MAX_SCHEMA_DEPTH - depth), RefUnsat(root, v, s, k, MAX_SCHEMA_DEPTH - depth))
    decreases DEPTHS - depth, 7
  {
    hide Validate, Sat, Unsat, Resolve;
    if k.ref.Some? && Target(root, s, k).Some? {
      ValidateIsRight(root, v, Target(root, s, k).value, st, depth + 1);
    }
  }

  lemma {:induction false} AllIsRight(root: Json, v: Json, branches: seq<Json>, st: State, depth: nat)
    requires depth <= MAX_SCHEMA_DEPTH && Consistent(st)
    ensures Right(RunAll(root, v, branches, st, depth), st,
                  AllSat(root, v, branches, MAX_SCHEMA_DEPTH - depth), SomeUnsat(root, v, branches, MAX_SCHEMA_DEPTH - depth))
    decreases DEPTHS - depth, 5, |branches|
  {
    hide Validate, Sat, Unsat;
    if branches != [] {
      var o := Validate(root, v, branches[0], st, depth + 1);
      ValidateIsRight(root, v, branches[0], st, depth + 1);
      AllIsRight(root, v, branches[1..], o.state, depth);
      Branches(root, v, branches, MAX_SCHEMA_DEPTH - depth);
    }
  }

  lemma Branches(root: Json, v: Json, branches: seq<Json>, h: nat)
    requires branches != []
    ensures AllSat(root, v, branches, h) <==> Sat(root, v, branches[0], h) && AllSat(root, v, branches[1..], h)
    ensures SomeUnsat(root, v, branches, h) <==> Unsat(root, v, branches[0], h) || SomeUnsat(root, v, branches[1..], h)
  {
    hide Sat, Unsat;
    var tail := branches[1..];
    assert forall i :: 0 <= i < |tail| ==> tail[i] == branches[i + 1];
    assert forall i :: 0 < i < |branches| ==> branches[i] == tail[i - 1];
  }

  lemma Alternatives(root: Json, v: Json, branches: seq<Json>, h: nat)
    requires branches != []
    ensures AllUnsat(root, v, branches, h) <==> Unsat(root, v, branches[0], h) && AllUnsat(root, v, branches[1..], h)
    ensures SomeSat(root, v, branches, h) <==> Sat(root, v, branches[0], h) || SomeSat(root, v, branches[1..], h)
  {
    hide Sat, Unsat;
    var tail := branches[1..];
    assert forall i :: 0 <= i < |tail| ==> tail[i] == branches[i + 1];
    assert forall i :: 0 < i < |branches| ==> branches[i] == tail[i - 1];
  }

  lemma {:induction false} AnyIsRight(root: Json, v: Json, branches: seq<Json>, st: State, depth: nat)
    requires depth <= MAX_SCHEMA_DEPTH && Consistent(st)
    ensures Right(RunAny(root, v, branches, st, depth), st,
                  SomeSat(root, v, branches, MAX_SCHEMA_DEPTH - depth), AllUnsat(root, v, branches, MAX_SCHEMA_DEPTH - depth))
    decreases DEPTHS - depth, 5, |branches|
  {
    hide Validate, Sat, Unsat;
    if branches != [] {
      var o := Validate(root, v, branches[0], st, depth + 1);
      ValidateIsRight(root, v, branches[0], st, depth + 1);
      AnyIsRight(root, v, branches[1..], o.state, depth);
      Alternatives(root, v, branches, MAX_SCHEMA_DEPTH - depth);
    }
  }

  // oneOf

  ghost predicate CountRight(c: Count, st: State, root: Json, v: Json, branches: seq<Json>, h: nat) {
    && Later(st, c.state)
    && (!c.state.hit ==>
          && (c.matches == 0 ==> AllUnsat(root, v, branches, h))
          && (c.matches == 1 ==> OneSat(root, v, branches, h))
          && (c.matches >= 2 ==> TwoSat(root, v, branches, h)))
  }

  lemma NoBranch(root: Json, v: Json, h: nat)
    ensures AllUnsat(root, v, [], h)
  {}

  lemma OnlyThen(root: Json, v: Json, branches: seq<Json>, h: nat, i: nat)
    requires branches != [] && i < |branches| - 1 && OnlySat(root, v, branches[1..], h, i)
    ensures Sat(root, v, branches[i + 1], h) && (Unsat(root, v, branches[0], h) ==> OnlySat(root, v, branches, h, i + 1))
  {
    hide Sat, Unsat;
    var tail := branches[1..];
    assert tail[i] == branches[i + 1];
    assert forall j :: 0 < j < |branches| ==> branches[j] == tail[j - 1];
  }

  lemma OneThen(root: Json, v: Json, branches: seq<Json>, h: nat)
    requires branches != [] && OneSat(root, v, branches[1..], h)
    ensures Unsat(root, v, branches[0], h) ==> OneSat(root, v, branches, h)
    ensures Sat(root, v, branches[0], h) ==> TwoSat(root, v, branches, h)
  {
    hide Sat, Unsat, OnlySat;
    var i :| 0 <= i < |branches[1..]| && OnlySat(root, v, branches[1..], h, i);
    OnlyThen(root, v, branches, h, i);
  }

  lemma NoneThen(root: Json, v: Json, branches: seq<Json>, h: nat)
    requires branches != [] && AllUnsat(root, v, branches[1..], h) && Sat(root, v, branches[0], h)
    ensures OneSat(root, v, branches, h)
  {
    hide Sat, Unsat;
    var tail := branches[1..];
    assert forall j :: 0 < j < |branches| ==> branches[j] == tail[j - 1];
    assert OnlySat(root, v, branches, h, 0);
  }

  lemma TwoThen(root: Json, v: Json, branches: seq<Json>, h: nat)
    requires branches != [] && TwoSat(root, v, branches[1..], h)
    ensures TwoSat(root, v, branches, h)
  {
    hide Sat;
    var tail := branches[1..];
    assert forall i :: 0 <= i < |tail| ==> tail[i] == branches[i + 1];
  }

  lemma OneMoreBranch(root: Json, v: Json, branches: seq<Json>, h: nat)
    requires branches != []
    ensures var tail := branches[1..];
            && (Unsat(root, v, branches[0], h) && OneSat(root, v, tail, h) ==> OneSat(root, v, branches, h))
            && (Sat(root, v, branches[0], h) && AllUnsat(root, v, tail, h) ==> OneSat(root, v, branches, h))
            && (Sat(root, v, branches[0], h) && OneSat(root, v, tail, h) ==> TwoSat(root, v, branches, h))
            && (TwoSat(root, v, tail, h) ==> TwoSat(root, v, branches, h))
  {
    hide Sat, Unsat, OneSat, TwoSat, AllUnsat;
    var tail := branches[1..];
    if OneSat(root, v, tail, h) { OneThen(root, v, branches, h); }
    if AllUnsat(root, v, tail, h) && Sat(root, v, branches[0], h) { NoneThen(root, v, branches, h); }
    if TwoSat(root, v, tail, h) { TwoThen(root, v, branches, h); }
  }

  lemma {:induction false} CountIsRight(root: Json, v: Json, branches: seq<Json>, st: State, depth: nat)
    requires depth <= MAX_SCHEMA_DEPTH && Consistent(st)
    ensures CountRight(RunCount(root, v, branches, st, depth), st, root, v, branches, MAX_SCHEMA_DEPTH - depth)
    decreases DEPTHS - depth, 5, |branches|
  {
    hide Validate, Sat, Unsat, OneSat, TwoSat, AllUnsat;
    if branches == [] {
      NoBranch(root, v, MAX_SCHEMA_DEPTH - depth);
    } else {
      var o := Validate(root, v, branches[0], st, depth + 1);
      ValidateIsRight(root, v, branches[0], st, depth + 1);
      CountIsRight(root, v, branches[1..], o.state, depth);
      Alternatives(root, v, branches, MAX_SCHEMA_DEPTH - depth);
      OneMoreBranch(root, v, branches, MAX_SCHEMA_DEPTH - depth);
    }
  }

  lemma {:induction false} OneOfIsRight(root: Json, v: Json, k: Keywords, st: State, depth: nat)
    requires depth <= MAX_SCHEMA_DEPTH && Consistent(st)
    ensures Right(RunOneOf(root, v, k, st, depth), st,
                  OneOfSat(root, v, k, MAX_SCHEMA_DEPTH - depth), OneOfUnsat(root, v, k, MAX_SCHEMA_DEPTH - depth))
    decreases DEPTHS - depth, 6
  {
    hide RunCount, OneSat, TwoSat, AllUnsat;
    if k.oneOf.Some? {
      CountIsRight(root, v, k.oneOf.value, Inside(st), depth);
    }
  }

  lemma {:induction false} NotIsRight(root: Json, v: Json, k: Keywords, st: State, depth: nat)
    requires depth <= MAX_SCHEMA_DEPTH && Consistent(st)
    ensures Right(RunNot(root, v, k, st, depth), st,
                  NegatedSat(root, v, k, MAX_SCHEMA_DEPTH - depth), NegatedUnsat(root, v, k, MAX_SCHEMA_DEPTH - depth))
    decreases DEPTHS - depth, 6
  {
    hide Validate, Sat, Unsat;
    if k.negated.Some? {
      ValidateIsRight(root, v, k.negated.value, Inside(st), depth + 1);
    }
  }

  // members and items

  lemma {:induction false} MemberIsRight(root: Json, f: Field, k: Keywords, st: State, depth: nat)
    requires depth <= MAX_SCHEMA_DEPTH && Consistent(st)
    ensures Right(RunMember(root, f, k, st, depth), st,
                  MemberSat(root, f, k, MAX_SCHEMA_DEPTH - depth), MemberUnsat(root, f, k, MAX_SCHEMA_DEPTH - depth))
    decreases DEPTHS - depth, 4
  {
    hide Validate, Sat, Unsat, Lookup;
    if !Forbidden(k, f.key) && MemberSchema(k, f.key).Some? {
      ValidateIsRight(root, f.value, MemberSchema(k, f.key).value, st, depth + 1);
    }
  }

  ghost predicate FieldsSat(root: Json, fields: seq<Field>, k: Keywords, h: nat) {
    forall i :: 0 <= i < |fields| ==> MemberSat(root, fields[i], k, h)
  }

  ghost predicate FieldsUnsat(root: Json, fields: seq<Field>, k: Keywords, h: nat) {
    exists i :: 0 <= i < |fields| && MemberUnsat(root, fields[i], k, h)
  }

  lemma FieldsUnfold(root: Json, fields: seq<Field>, k: Keywords, h: nat)
    requires fields != []
    ensures FieldsSat(root, fields, k, h) <==> MemberSat(root, fields[0], k, h) && FieldsSat(root, fields[1..], k, h)
    ensures FieldsUnsat(root, fields, k, h) <==> MemberUnsat(root, fields[0], k, h) || FieldsUnsat(root, fields[1..], k, h)
  {
    hide MemberSat, MemberUnsat;
    var tail := fields[1..];
    assert forall i :: 0 <= i < |tail| ==> tail[i] == fields[i + 1];
    assert forall i :: 0 < i < |fields| ==> fields[i] == tail[i - 1];
  }

  lemma {:induction false} MembersAreRight(root: Json, fields: seq<Field>, k: Keywords, st: State, depth: nat)
    requires depth <= MAX_SCHEMA_DEPTH && Consistent(st)
    ensures Right(RunMembers(root, fields, k, st, depth), st,
                  FieldsSat(root, fields, k, MAX_SCHEMA_DEPTH - depth), FieldsUnsat(root, fields, k, MAX_SCHEMA_DEPTH - depth))
    decreases DEPTHS - depth, 5, |fields|
  {
    hide RunMember, MemberSat, MemberUnsat;
    if fields != [] {
      var o := RunMember(root, fields[0], k, st, depth);
      MemberIsRight(root, fields[0], k, st, depth);
      MembersAreRight(root, fields[1..], k, o.state, depth);
      FieldsUnfold(root, fields, k, MAX_SCHEMA_DEPTH - depth);
    }
  }

  ghost predicate EachSat(root: Json, items: seq<Json>, s: Json, h: nat) {
    forall i :: 0 <= i < |items| ==> Sat(root, items[i], s, h)
  }

  ghost predicate OneUnsat(root: Json, items: seq<Json>, s: Json, h: nat) {
    exists i :: 0 <= i < |items| && Unsat(root, items[i], s, h)
  }

  lemma ItemsUnfold(root: Json, items: seq<Json>, s: Json, h: nat)
    requires items != []
    ensures EachSat(root, items, s, h) <==> Sat(root, items[0], s, h) && EachSat(root, items[1..], s, h)
    ensures OneUnsat(root, items, s, h) <==> Unsat(root, items[0], s, h) || OneUnsat(root, items[1..], s, h)
  {
    hide ReadKeywords, SatObject, UnsatObject;
    var tail := items[1..];
    assert forall i :: 0 <= i < |tail| ==> tail[i] == items[i + 1];
    assert forall i :: 0 < i < |items| ==> items[i] == tail[i - 1];
  }

  lemma {:induction false} ItemsAreRight(root: Json, items: seq<Json>, s: Json, st: State, depth: nat)
    requires depth <= MAX_SCHEMA_DEPTH && Consistent(st)
    ensures Right(RunItems(root, items, s, st, depth), st,
                  EachSat(root, items, s, MAX_SCHEMA_DEPTH - depth), OneUnsat(root, items, s, MAX_SCHEMA_DEPTH - depth))
    decreases DEPTHS - depth, 5, |items|
  {
    hide Validate, Sat, Unsat;
    if items != [] {
      var o := Validate(root, items[0], s, st, depth + 1);
      ValidateIsRight(root, items[0], s, st, depth + 1);
      ItemsAreRight(root, items[1..], s, o.state, depth);
      ItemsUnfold(root, items, s, MAX_SCHEMA_DEPTH - depth);
    }
  }

  // a whole schema object

  /** The bounded comparisons err on one side only, and not on values they see to the bottom of. */
  lemma ComparisonsAreRight(v: Json, k: Keywords)
    ensures ValuesAccepted(v, k) ==> ValuesAllowed(v, k)
    ensures Unique(v, k) ==> UniqueAccepted(v, k)
    ensures !ComparesDeep(v, k) ==> ValuesAccepted(v, k) == ValuesAllowed(v, k)
    ensures !ComparesDeepItems(v, k) ==> UniqueAccepted(v, k) == Unique(v, k)
  {
    hide JsonEqual, Same, Shallow, Declares;
    if k.constant.Some? { JsonEqualIsSame(v, k.constant.value, 0); }
    if k.choices.Some? {
      forall i | 0 <= i < |k.choices.value|
        ensures JsonEqual(v, k.choices.value[i], 0) <==> Same(v, k.choices.value[i]) && Shallow(v, 0)
      {
        JsonEqualIsSame(v, k.choices.value[i], 0);
      }
    }
    if v.Arr? {
      forall i, j | 0 <= i < j < |v.items|
        ensures JsonEqual(v.items[i], v.items[j], 0) <==> Same(v.items[i], v.items[j]) && Shallow(v.items[i], 0)
      {
        JsonEqualIsSame(v.items[i], v.items[j], 0);
      }
    }
  }

  ghost predicate BranchesSat(root: Json, v: Json, k: Keywords, h: nat) {
    AllSat(root, v, k.allOf, h) && AnySat(root, v, k, h) && OneOfSat(root, v, k, h) && NegatedSat(root, v, k, h)
  }

  ghost predicate BranchesUnsat(root: Json, v: Json, k: Keywords, h: nat) {
    SomeUnsat(root, v, k.allOf, h) || AnyUnsat(root, v, k, h) || OneOfUnsat(root, v, k, h) || NegatedUnsat(root, v, k, h)
  }

  lemma {:induction false} PlainIsRight(root: Json, v: Json, k: Keywords, st: State, depth: nat)
    requires depth <= MAX_SCHEMA_DEPTH && Consistent(st)
    ensures Right(RunPlain(root, v, k, st, depth), st,
                  AllSat(root, v, k.allOf, MAX_SCHEMA_DEPTH - depth) && AnySat(root, v, k, MAX_SCHEMA_DEPTH - depth),
                  SomeUnsat(root, v, k.allOf, MAX_SCHEMA_DEPTH - depth) || AnyUnsat(root, v, k, MAX_SCHEMA_DEPTH - depth))
    decreases DEPTHS - depth, 6
  {
    hide RunAll, RunAny, AllSat, SomeUnsat, SomeSat, AllUnsat;
    var all := RunAll(root, v, k.allOf, st, depth);
    AllIsRight(root, v, k.allOf, st, depth);
    if k.anyOf.Some? { AnyIsRight(root, v, k.anyOf.value, all.state, depth); }
  }

  lemma {:induction false} BranchesAreRight(root: Json, v: Json, k: Keywords, st: State, depth: nat)
    requires depth <= MAX_SCHEMA_DEPTH && Consistent(st)
    ensures Right(RunBranches(root, v, k, st, depth), st,
                  BranchesSat(root, v, k, MAX_SCHEMA_DEPTH - depth), BranchesUnsat(root, v, k, MAX_SCHEMA_DEPTH - depth))
    decreases DEPTHS - depth, 7
  {
    hide RunPlain, RunOneOf, RunNot, AllSat, SomeUnsat, AnySat, AnyUnsat, OneOfSat, OneOfUnsat, NegatedSat, NegatedUnsat;
    var plain := RunPlain(root, v, k, st, depth);
    PlainIsRight(root, v, k, st, depth);
    OneOfIsRight(root, v, k, plain.state, depth);
    NotIsRight(root, v, k, RunOneOf(root, v, k, plain.state, depth).state, depth);
  }

  ghost predicate StructureSat(root: Json, v: Json, k: Keywords, h: nat) {
    Shapes(v, k) && Unique(v, k) && MembersSat(root, v, k, h) && ItemsSat(root, v, k, h)
  }

  ghost predicate StructureUnsat(root: Json, v: Json, k: Keywords, h: nat) {
    !Shapes(v, k) || !Unique(v, k) || MembersUnsat(root, v, k, h) || ItemsUnsat(root, v, k, h)
  }

  lemma MembersByFields(root: Json, v: Json, k: Keywords, h: nat)
    ensures MembersSat(root, v, k, h) <==> (v.Obj? && Declares(k, "object") ==> FieldsSat(root, v.fields, k, h))
    ensures MembersUnsat(root, v, k, h) <==> (v.Obj? && Declares(k, "object") && FieldsUnsat(root, v.fields, k, h))
    ensures ItemsSat(root, v, k, h) <==> (ItemsApply(v, k) ==> EachSat(root, v.items, k.items.value, h))
    ensures ItemsUnsat(root, v, k, h) <==> (ItemsApply(v, k) && OneUnsat(root, v.items, k.items.value, h))
  {
    hide ReadKeywords, SatObject, UnsatObject, Declares;
  }

  ghost predicate ArraySat(root: Json, v: Json, k: Keywords, h: nat) {
    ArrayShape(v, k) && Unique(v, k) && ItemsSat(root, v, k, h) && StringShape(v, k) && NumberShape(v, k)
  }

  ghost predicate ArrayUnsat(root: Json, v: Json, k: Keywords, h: nat) {
    !ArrayShape(v, k) || !Unique(v, k) || ItemsUnsat(root, v, k, h) || !StringShape(v, k) || !NumberShape(v, k)
  }

  lemma {:induction false} ArrayIsRight(root: Json, v: Json, k: Keywords, st: State, depth: nat)
    requires depth <= MAX_SCHEMA_DEPTH && Consistent(st)
    ensures Right(RunArray(root, v, k, st, depth), st,
                  ArraySat(root, v, k, MAX_SCHEMA_DEPTH - depth), ArrayUnsat(root, v, k, MAX_SCHEMA_DEPTH - depth))
    decreases DEPTHS - depth, 6
  {
    hide RunItems, ItemsSat, ItemsUnsat, EachSat, OneUnsat, MembersSat, MembersUnsat, ArrayShape, StringShape, NumberShape, Unique,
         UniqueAccepted, ComparesDeepItems, Declares;
    MembersByFields(root, v, k, MAX_SCHEMA_DEPTH - depth);
    ComparisonsAreRight(v, k);
    if ItemsApply(v, k) {
      ItemsAreRight(root, v.items, k.items.value, ComparedItems(st, v, k), depth);
    }
  }

  lemma {:induction false} StructureIsRight(root: Json, v: Json, k: Keywords, st: State, depth: nat)
    requires depth <= MAX_SCHEMA_DEPTH && Consistent(st)
    ensures Right(RunStructure(root, v, k, st, depth), st,
                  StructureSat(root, v, k, MAX_SCHEMA_DEPTH - depth), StructureUnsat(root, v, k, MAX_SCHEMA_DEPTH - depth))
    decreases DEPTHS - depth, 7
  {
    hide RunMembers, RunArray, MembersSat, MembersUnsat, ItemsSat, ItemsUnsat, FieldsSat, FieldsUnsat, TypesOk, ObjectShape, ArrayShape,
         StringShape, NumberShape, Unique, Declares;
    MembersByFields(root, v, k, MAX_SCHEMA_DEPTH - depth);
    var members := Outcome(true, st);
    if v.Obj? && Declares(k, "object") {
      MembersAreRight(root, v.fields, k, st, depth);
      members := RunMembers(root, v.fields, k, st, depth);
    }
    ArrayIsRight(root, v, k, members.state, depth);
  }

  ghost predicate RestSat(root: Json, v: Json, k: Keywords, h: nat) {
    ValuesAllowed(v, k) && BranchesSat(root, v, k, h) && StructureSat(root, v, k, h)
  }

  ghost predicate RestUnsat(root: Json, v: Json, k: Keywords, h: nat) {
    !ValuesAllowed(v, k) || BranchesUnsat(root, v, k, h) || StructureUnsat(root, v, k, h)
  }

  lemma {:induction false} RestIsRight(root: Json, v: Json, k: Keywords, st: State, depth: nat)
    requires depth <= MAX_SCHEMA_DEPTH && Consistent(st)
    ensures Right(RunRest(root, v, k, st, depth), st,
                  RestSat(root, v, k, MAX_SCHEMA_DEPTH - depth), RestUnsat(root, v, k, MAX_SCHEMA_DEPTH - depth))
    decreases DEPTHS - depth, 8
  {
    hide RunBranches, RunStructure, ValuesAllowed, ValuesAccepted, BranchesSat, BranchesUnsat, StructureSat, StructureUnsat, ComparesDeep;
    ComparisonsAreRight(v, k);
    var t := Compared(st, v, k);
    BranchesAreRight(root, v, k, t, depth);
    StructureIsRight(root, v, k, RunBranches(root, v, k, t, depth).state, depth);
  }

  lemma {:induction false} ObjectIsRight(root: Json, v: Json, s: Json, k: Keywords, st: State, depth: nat)
    requires depth <= MAX_SCHEMA_DEPTH && Consistent(st)
    ensures Right(RunObject(root, v, s, k, st, depth), st,
                  SatObject(root, v, s, k, MAX_SCHEMA_DEPTH - depth), UnsatObject(root, v, s, k, MAX_SCHEMA_DEPTH - depth))
    decreases DEPTHS - depth, 9
  {
    hide RunRef, RunRest, RefSat, RefUnsat, RestSat, RestUnsat, SatObject, UnsatObject;
    RefIsRight(root, v, s, k, st, depth);
    RestIsRight(root, v, k, RunRef(root, v, s, k, st, depth).state, depth);
    ObjectParts(root, v, s, k, MAX_SCHEMA_DEPTH - depth);
  }

  lemma ObjectParts(root: Json, v: Json, s: Json, k: Keywords, h: nat)
    ensures SatObject(root, v, s, k, h)
            <==> RefSat(root, v, s, k, h) && RestSat(root, v, k, h)
    ensures UnsatObject(root, v, s, k, h)
            <==> RefUnsat(root, v, s, k, h) || RestUnsat(root, v, k, h)
  {
    hide Shapes, ValuesAllowed, Unique, AllSat, SomeUnsat, RefSat, RefUnsat, AnySat, AnyUnsat, OneOfSat, OneOfUnsat, NegatedSat, NegatedUnsat,
         MembersSat, MembersUnsat, ItemsSat, ItemsUnsat;
  }

  // ---- the verdict on tool arguments ----

  function Verdict(schema: Json, v: Json): Outcome {
    Validate(schema, v, schema, START, 0)
  }

  /** When no limit was hit, the answer is the meaning: true exactly when some derivation exists. */
  lemma UncutVerdictIsMeaning(schema: Json, v: Json)
    requires !Verdict(schema, v).state.hit
    ensures Verdict(schema, v).ok <==> exists h: nat :: Sat(schema, v, schema, h)
    ensures !Verdict(schema, v).ok <==> exists h: nat :: Unsat(schema, v, schema, h)
  {
    hide Validate, Sat, Unsat;
    ValidateIsRight(schema, v, schema, START, 0);
    if h: nat :| Sat(schema, v, schema, h) {
      NotBoth(schema, v, schema, h, DEPTHS);
    }
    if h: nat :| Unsat(schema, v, schema, h) {
      NotBoth(schema, v, schema, DEPTHS, h);
    }
  }

  lemma NotBoth(root: Json, v: Json, s: Json, h: nat, g: nat)
    ensures !(Sat(root, v, s, h) && Unsat(root, v, s, g))
  {
    hide SatObject, UnsatObject, ReadKeywords;
    MeaningIsConsistent(root, h, g);
  }

  /** Even with exhausted limits, a true answer has a finite derivation unless something negated was cut. */
  lemma TrueVerdictHasDerivation(schema: Json, v: Json)
    requires Verdict(schema, v).ok && !Verdict(schema, v).state.unsafe
    ensures Sat(schema, v, schema, DEPTHS)
  {
    hide Validate, Sat, Unsat;
    ValidateIsRight(schema, v, schema, START, 0);
  }

  // ---- what can raise the observations ----

  /** No object anywhere in the document carries not or oneOf, nor uniqueItems unless that is allowed. */
  predicate Plain(j: Json, unique: bool) {
    match j
    case Arr(items) => forall i :: 0 <= i < |items| ==> Plain(items[i], unique)
    case Obj(fields) =>
      && Lookup(fields, "not").None? && AsList(Lookup(fields, "oneOf")).None?
      && (unique || Lookup(fields, "uniqueItems") != Some(Bool(true)))
      && forall i :: 0 <= i < |fields| ==> Plain(fields[i].value, unique)
    case _ => true
  }

  lemma {:induction false} LookupFinds(fields: seq<Field>, key: string)
    ensures Lookup(fields, key).Some? ==> exists i :: 0 <= i < |fields| && fields[i].value == Lookup(fields, key).value
  {
    if fields != [] && fields[0].key != key {
      LookupFinds(fields[1..], key);
      if Lookup(fields, key).Some? {
        var i :| 0 <= i < |fields[1..]| && fields[1..][i].value == Lookup(fields, key).value;
        assert fields[i + 1].value == Lookup(fields, key).value;
      }
    }
  }

  lemma PlainLookup(fields: seq<Field>, key: string, unique: bool)
    requires Plain(Obj(fields), unique) && Lookup(fields, key).Some?
    ensures Plain(Lookup(fields, key).value, unique)
  {
    hide Lookup;
    LookupFinds(fields, key);
  }

  lemma {:induction false} PlainWalk(current: Json, keys: seq<string>, unique: bool)
    requires Plain(current, unique) && Walk(current, keys).Some?
    ensures Plain(Walk(current, keys).value, unique)
    decreases keys
  {
    hide Lookup;
    if keys != [] {
      if current.Obj? { PlainLookup(current.fields, keys[0], unique); }
      PlainWalk(Child(current, keys[0]).value, keys[1..], unique);
    }
  }

  predicate PlainList(items: seq<Json>, unique: bool) {
    forall i :: 0 <= i < |items| ==> Plain(items[i], unique)
  }

  ghost predicate PlainKeywords(k: Keywords, unique: bool) {
    && k.negated.None? && k.oneOf.None? && (unique || !k.unique)
    && PlainList(k.allOf, unique) && (k.anyOf.Some? ==> PlainList(k.anyOf.value, unique)) && (k.items.Some? ==> Plain(k.items.value, unique))
    && (forall key: string :: MemberSchema(k, key).Some? ==> Plain(MemberSchema(k, key).value, unique))
  }

  lemma PlainLists(fields: seq<Field>, key: string, unique: bool)
    requires Plain(Obj(fields), unique) && AsList(Lookup(fields, key)).Some?
    ensures PlainList(AsList(Lookup(fields, key)).value, unique)
  {
    hide Lookup;
    PlainLookup(fields, key, unique);
  }

  lemma PlainReads(fields: seq<Field>, unique: bool)
    requires Plain(Obj(fields), unique)
    ensures PlainKeywords(ReadKeywords(fields), unique)
  {
    hide Lookup, Plain, PlainList;
    var k := ReadKeywords(fields);
    assert k.negated.None? && k.oneOf.None? && (unique || !k.unique) by { PlainNames(fields, unique); }
    assert PlainList([], unique) by { NothingPlain(unique); }
    if AsList(Lookup(fields, "allOf")).Some? { PlainLists(fields, "allOf", unique); }
    if AsList(Lookup(fields, "anyOf")).Some? { PlainLists(fields, "anyOf", unique); }
    if Lookup(fields, "items").Some? { PlainLookup(fields, "items", unique); }
    if Lookup(fields, "additionalProperties").Some? { PlainLookup(fields, "additionalProperties", unique); }
    forall key: string | MemberSchema(k, key).Some? ensures Plain(MemberSchema(k, key).value, unique) {
      NoFields(key);
      if Lookup(k.properties, key).Some? {
        PlainLookup(fields, "properties", unique);
        PlainLookup(k.properties, key, unique);
      }
    }
  }

  lemma NoFields(key: string)
    ensures Lookup([], key) == None
  {}

  lemma NothingPlain(unique: bool)
    ensures PlainList([], unique)
  {}

  lemma PlainNames(fields: seq<Field>, unique: bool)
    requires Plain(Obj(fields), unique)
    ensures Lookup(fields, "not").None? && AsList(Lookup(fields, "oneOf")).None?
    ensures unique || Lookup(fields, "uniqueItems") != Some(Bool(true))
  {}

  lemma PlainTarget(root: Json, s: Json, k: Keywords, unique: bool)
    requires Plain(root, unique) && k.ref.Some? && Target(root, s, k).Some?
    ensures Plain(Target(root, s, k).value, unique)
  {
    hide Plain, Walk;
    var keys := if |k.ref.value| < 2 then [] else UnescapeAll(Split(k.ref.value[2..]));
    if k.ref.value != "#" { PlainWalk(root, keys, unique); }
  }

  lemma {:induction false} ShallowRises(a: Json, depth: nat)
    requires Shallow(a, depth + 1)
    ensures Shallow(a, depth)
    decreases a
  {
    match a
    case Arr(xs) => forall i | 0 <= i < |xs| ensures Shallow(xs[i], depth + 1) { ShallowRises(xs[i], depth + 1); }
    case Obj(xs) => forall i | 0 <= i < |xs| ensures Shallow(xs[i].value, depth + 1) { ShallowRises(xs[i].value, depth + 1); }
    case _ =>
  }

  lemma ShallowParts(v: Json)
    requires Shallow(v, 0)
    ensures v.Arr? ==> forall i :: 0 <= i < |v.items| ==> Shallow(v.items[i], 0)
    ensures v.Obj? ==> forall i :: 0 <= i < |v.fields| ==> Shallow(v.fields[i].value, 0)
  {
    if v.Arr? { forall i | 0 <= i < |v.items| ensures Shallow(v.items[i], 0) { ShallowRises(v.items[i], 0); } }
    if v.Obj? { forall i | 0 <= i < |v.fields| ensures Shallow(v.fields[i].value, 0) { ShallowRises(v.fields[i].value, 0); } }
  }

  /**
   * What a run raises: on a value that the comparisons see to the bottom of, nothing but the limits is
   * hit; over a plain schema (with uniqueItems only for such values), nothing is unsafe.
   */
  predicate Quiet(st: State, t: State, shallow: bool, plain: bool) {
    && (shallow ==> t.hit ==> t.limited || st.hit)
    && (st.limited ==> t.limited)
    && (plain && !st.unsafe ==> !t.unsafe)
  }

  lemma {:induction false} ValidateIsQuiet(root: Json, v: Json, s: Json, st: State, depth: nat, shallow: bool, plain: bool)
    requires depth <= DEPTHS && (shallow ==> Shallow(v, 0)) && (plain ==> Plain(root, shallow) && Plain(s, shallow))
    ensures Quiet(st, Validate(root, v, s, st, depth).state, shallow, plain)
    decreases DEPTHS - depth, 10
  {
    hide RunObject, ReadKeywords, Plain, Shallow;
    if depth <= MAX_SCHEMA_DEPTH && st.nodes + 1 <= MAX_VALIDATION_NODES && s.Obj? {
      if plain { PlainReads(s.fields, shallow); }
      ObjectIsQuiet(root, v, s, ReadKeywords(s.fields), st.(nodes := st.nodes + 1), depth, shallow, plain);
    }
  }

  lemma {:induction false} ObjectIsQuiet(root: Json, v: Json, s: Json, k: Keywords, st: State, depth: nat, shallow: bool, plain: bool)
    requires depth <= MAX_SCHEMA_DEPTH && (shallow ==> Shallow(v, 0)) && (plain ==> Plain(root, shallow) && PlainKeywords(k, shallow))
    ensures Quiet(st, RunObject(root, v, s, k, st, depth).state, shallow, plain)
    decreases DEPTHS - depth, 9
  {
    hide Plain, Shallow, RunRef, RunRest, PlainKeywords;
    RefIsQuiet(root, v, s, k, st, depth, shallow, plain);
    RestIsQuiet(root, v, k, RunRef(root, v, s, k, st, depth).state, depth, shallow, plain);
  }

  lemma {:induction false} RestIsQuiet(root: Json, v: Json, k: Keywords, st: State, depth: nat, shallow: bool, plain: bool)
    requires depth <= MAX_SCHEMA_DEPTH && (shallow ==> Shallow(v, 0)) && (plain ==> Plain(root, shallow) && PlainKeywords(k, shallow))
    ensures Quiet(st, RunRest(root, v, k, st, depth).state, shallow, plain)
    decreases DEPTHS - depth, 8
  {
    hide Plain, Shallow, RunBranches, RunStructure, PlainKeywords, ValuesAccepted;
    var t := Compared(st, v, k);
    BranchesAreQuiet(root, v, k, t, depth, shallow, plain);
    StructureIsQuiet(root, v, k, RunBranches(root, v, k, t, depth).state, depth, shallow, plain);
  }

  lemma {:induction false} RefIsQuiet(root: Json, v: Json, s: Json, k: Keywords, st: State, depth: nat, shallow: bool, plain: bool)
    requires depth <= MAX_SCHEMA_DEPTH && (shallow ==> Shallow(v, 0)) && (plain ==> Plain(root, shallow))
    ensures Quiet(st, RunRef(root, v, s, k, st, depth).state, shallow, plain)
    decreases DEPTHS - depth, 7
  {
    hide Plain, Shallow, Validate, Resolve;
    if k.ref.Some? && Target(root, s, k).Some? {
      if plain { PlainTarget(root, s, k, shallow); }
      ValidateIsQuiet(root, v, Target(root, s, k).value, st, depth + 1, shallow, plain);
    }
  }

  lemma {:induction false} BranchesAreQuiet(root: Json, v: Json, k: Keywords, st: State, depth: nat, shallow: bool, plain: bool)
    requires depth <= MAX_SCHEMA_DEPTH && (shallow ==> Shallow(v, 0)) && (plain ==> Plain(root, shallow) && PlainKeywords(k, shallow))
    ensures Quiet(st, RunBranches(root, v, k, st, depth).state, shallow, plain)
    decreases DEPTHS - depth, 7
  {
    hide Plain, Shallow, PlainList, RunAll, RunAny, MemberSchema, RunOneOf, RunNot;
    AllAreQuiet(root, v, k.allOf, st, depth, shallow, plain);
    if k.anyOf.Some? { AnyIsQuiet(root, v, k.anyOf.value, RunAll(root, v, k.allOf, st, depth).state, depth, shallow, plain); }
    var t := RunPlain(root, v, k, st, depth).state;
    OneOfIsQuiet(root, v, k, t, depth, shallow, plain);
    NotIsQuiet(root, v, k, RunOneOf(root, v, k, t, depth).state, depth, shallow, plain);
  }

  lemma {:induction false} AllAreQuiet(root: Json, v: Json, branches: seq<Json>, st: State, depth: nat, shallow: bool, plain: bool)
    requires depth <= MAX_SCHEMA_DEPTH && (shallow ==> Shallow(v, 0)) && (plain ==> Plain(root, shallow) && PlainList(branches, shallow))
    ensures Quiet(st, RunAll(root, v, branches, st, depth).state, shallow, plain)
    decreases DEPTHS - depth, 5, |branches|
  {
    hide Plain, Shallow, Validate;
    if branches != [] {
      ValidateIsQuiet(root, v, branches[0], st, depth + 1, shallow, plain);
      AllAreQuiet(root, v, branches[1..], Validate(root, v, branches[0], st, depth + 1).state, depth, shallow, plain);
    }
  }

  lemma {:induction false} AnyIsQuiet(root: Json, v: Json, branches: seq<Json>, st: State, depth: nat, shallow: bool, plain: bool)
    requires depth <= MAX_SCHEMA_DEPTH && (shallow ==> Shallow(v, 0)) && (plain ==> Plain(root, shallow) && PlainList(branches, shallow))
    ensures Quiet(st, RunAny(root, v, branches, st, depth).state, shallow, plain)
    decreases DEPTHS - depth, 5, |branches|
  {
    hide Plain, Shallow, Validate;
    if branches != [] {
      ValidateIsQuiet(root, v, branches[0], st, depth + 1, shallow, plain);
      AnyIsQuiet(root, v, branches[1..], Validate(root, v, branches[0], st, depth + 1).state, depth, shallow, plain);
    }
  }

  lemma {:induction false} CountIsQuiet(root: Json, v: Json, branches: seq<Json>, st: State, depth: nat, shallow: bool)
    requires depth <= MAX_SCHEMA_DEPTH && (shallow ==> Shallow(v, 0))
    ensures Quiet(st, RunCount(root, v, branches, st, depth).state, shallow, false)
    decreases DEPTHS - depth, 5, |branches|
  {
    hide Plain, Shallow, Validate;
    if branches != [] {
      ValidateIsQuiet(root, v, branches[0], st, depth + 1, shallow, false);
      CountIsQuiet(root, v, branches[1..], Validate(root, v, branches[0], st, depth + 1).state, depth, shallow);
    }
  }

  lemma {:induction false} OneOfIsQuiet(root: Json, v: Json, k: Keywords, st: State, depth: nat, shallow: bool, plain: bool)
    requires depth <= MAX_SCHEMA_DEPTH && (shallow ==> Shallow(v, 0)) && (plain ==> k.oneOf.None?)
    ensures Quiet(st, RunOneOf(root, v, k, st, depth).state, shallow, plain)
    decreases DEPTHS - depth, 6
  {
    hide Shallow, RunCount;
    if k.oneOf.Some? { CountIsQuiet(root, v, k.oneOf.value, Inside(st), depth, shallow); }
  }

  lemma {:induction false} NotIsQuiet(root: Json, v: Json, k: Keywords, st: State, depth: nat, shallow: bool, plain: bool)
    requires depth <= MAX_SCHEMA_DEPTH && (shallow ==> Shallow(v, 0)) && (plain ==> k.negated.None?)
    ensures Quiet(st, RunNot(root, v, k, st, depth).state, shallow, plain)
    decreases DEPTHS - depth, 6
  {
    hide Shallow, Validate;
    if k.negated.Some? { ValidateIsQuiet(root, v, k.negated.value, Inside(st), depth + 1, shallow, false); }
  }

  lemma {:induction false} StructureIsQuiet(root: Json, v: Json, k: Keywords, st: State, depth: nat, shallow: bool, plain: bool)
    requires depth <= MAX_SCHEMA_DEPTH && (shallow ==> Shallow(v, 0)) && (plain ==> Plain(root, shallow) && PlainKeywords(k, shallow))
    ensures Quiet(st, RunStructure(root, v, k, st, depth).state, shallow, plain)
    decreases DEPTHS - depth, 7
  {
    hide Plain, Shallow, PlainList, RunMembers, RunItems, MemberSchema, TypesOk, ObjectShape, ArrayShape, StringShape, NumberShape, Declares,
         UniqueAccepted;
    if shallow { ShallowParts(v); }
    var members := Outcome(true, st);
    if v.Obj? && Declares(k, "object") {
      MembersAreQuiet(root, v.fields, k, st, depth, shallow, plain);
      members := RunMembers(root, v.fields, k, st, depth);
    }
    if ItemsApply(v, k) {
      ItemsAreQuiet(root, v.items, k.items.value, ComparedItems(members.state, v, k), depth, shallow, plain);
    }
  }

  lemma {:induction false} MembersAreQuiet(root: Json, fields: seq<Field>, k: Keywords, st: State, depth: nat, shallow: bool, plain: bool)
    requires depth <= MAX_SCHEMA_DEPTH && (plain ==> Plain(root, shallow) && PlainKeywords(k, shallow))
    requires shallow ==> forall i :: 0 <= i < |fields| ==> Shallow(fields[i].value, 0)
    ensures Quiet(st, RunMembers(root, fields, k, st, depth).state, shallow, plain)
    decreases DEPTHS - depth, 5, |fields|
  {
    hide Plain, Shallow, PlainList, Validate, Lookup;
    if fields != [] {
      var m := MemberSchema(k, fields[0].key);
      if m.Some? { ValidateIsQuiet(root, fields[0].value, m.value, st, depth + 1, shallow, plain); }
      MembersAreQuiet(root, fields[1..], k, RunMember(root, fields[0], k, st, depth).state, depth, shallow, plain);
    }
  }

  lemma {:induction false} ItemsAreQuiet(root: Json, items: seq<Json>, s: Json, st: State, depth: nat, shallow: bool, plain: bool)
    requires depth <= MAX_SCHEMA_DEPTH && (plain ==> Plain(root, shallow) && Plain(s, shallow))
    requires shallow ==> forall i :: 0 <= i < |items| ==> Shallow(items[i], 0)
    ensures Quiet(st, RunItems(root, items, s, st, depth).state, shallow, plain)
    decreases DEPTHS - depth, 5, |items|
  {
    hide Plain, Shallow, Validate;
    if items != [] {
      ValidateIsQuiet(root, items[0], s, st, depth + 1, shallow, plain);
      ItemsAreQuiet(root, items[1..], s, Validate(root, items[0], s, st, depth + 1).state, depth, shallow, plain);
    }
  }

  /** On a value nested at most 64 deep, whatever cut an answer short was the depth or the node limit. */
  lemma OnlyLimitsAreHit(schema: Json, v: Json)
    requires Shallow(v, 0) && !Verdict(schema, v).state.limited
    ensures !Verdict(schema, v).state.hit
  {
    hide Validate, Shallow, Plain;
    ValidateIsQuiet(schema, v, schema, START, 0, true, false);
  }

  /** So for such a value, unless the depth or the node limit was reached, the answer is the meaning. */
  lemma UnlimitedVerdictIsMeaning(schema: Json, v: Json)
    requires Shallow(v, 0) && !Verdict(schema, v).state.limited
    ensures Verdict(schema, v).ok <==> exists h: nat :: Sat(schema, v, schema, h)
    ensures !Verdict(schema, v).ok <==> exists h: nat :: Unsat(schema, v, schema, h)
  {
    hide Verdict, Sat, Unsat, Shallow;
    OnlyLimitsAreHit(schema, v);
    UncutVerdictIsMeaning(schema, v);
  }

  /**
   * Whatever limits were reached, a schema without not and oneOf never accepts a value that has no
   * derivation, provided that it carries no uniqueItems either or the value is nested at most 64 deep.
   */
  lemma PlainSchemaNeverOveraccepts(schema: Json, v: Json)
    requires Plain(schema, Shallow(v, 0)) && Verdict(schema, v).ok
    ensures Sat(schema, v, schema, DEPTHS)
  {
    hide Validate, Sat, Plain, Shallow;
    ValidateIsQuiet(schema, v, schema, START, 0, Shallow(v, 0), true);
    TrueVerdictHasDerivation(schema, v);
  }

  // ---- uniqueItems over deep items ----

  predicate Repeats(items: seq<Json>, shallowOnly: bool) {
    exists i, j :: 0 <= i < j < |items| && Same(items[i], items[j]) && (shallowOnly ==> Shallow(items[i], 0))
  }

  /** The uniqueness check overlooks repetitions exactly when every repeated item is nested beyond the limit. */
  lemma UniqueMissesDeepOnly(v: Json, k: Keywords)
    requires v.Arr? && Declares(k, "array") && k.unique
    ensures UniqueAccepted(v, k) && !Unique(v, k) <==> Repeats(v.items, false) && !Repeats(v.items, true)
  {
    hide JsonEqual, Same, Shallow, Declares;
    forall i, j | 0 <= i < j < |v.items|
      ensures JsonEqual(v.items[i], v.items[j], 0) <==> Same(v.items[i], v.items[j]) && Shallow(v.items[i], 0)
    {
      JsonEqualIsSame(v.items[i], v.items[j], 0);
    }
  }

  function Nest(n: nat): Json {
    if n == 0 then Arr([]) else Arr([Nest(n - 1)])
  }

  lemma {:induction false} NestFacts(n: nat, depth: nat)
    ensures Same(Nest(n), Nest(n)) && (Shallow(Nest(n), depth) <==> depth + n <= MAX_SCHEMA_DEPTH)
  {
    if n > 0 {
      NestFacts(n - 1, depth + 1);
      assert Nest(n).items == [Nest(n - 1)];
      assert Shallow(Nest(n), depth) <==> depth <= MAX_SCHEMA_DEPTH && Shallow(Nest(n).items[0], depth + 1);
    }
  }

  const UNIQUE_SCHEMA := Obj([Field("uniqueItems", Bool(true))])

  lemma UniqueKeywords()
    ensures OnlyUnique(ReadKeywords(UNIQUE_SCHEMA.fields))
  {
    assert UNIQUE_SCHEMA.fields[1..] == [];
  }

  /** No keyword but uniqueItems. */
  ghost predicate OnlyUnique(k: Keywords) {
    && k.ref.None? && k.constant.None? && k.choices.None? && k.allOf == [] && k.anyOf.None? && k.oneOf.None? && k.negated.None?
    && k.types == [] && k.unique && k.items.None? && k.minItems.None? && k.maxItems.None?
    && k.minProperties.None? && k.maxProperties.None? && k.required == [] && k.properties == [] && k.additional.None?
    && k.minLength.None? && k.maxLength.None? && k.minimum.None? && k.maximum.None?
    && k.exclusiveMinimum.None? && k.exclusiveMaximum.None?
  }

  lemma {:induction false} FreeMembers(root: Json, fields: seq<Field>, k: Keywords, st: State, depth: nat)
    requires depth <= MAX_SCHEMA_DEPTH && k.properties == [] && k.additional.None?
    ensures RunMembers(root, fields, k, st, depth) == Outcome(true, st)
    decreases |fields|
  {
    hide Validate;
    if fields != [] { FreeMembers(root, fields[1..], k, st, depth); }
  }

  lemma FreeShapes(v: Json, k: Keywords)
    requires OnlyUnique(k)
    ensures TypesOk(v, k) && ObjectShape(v, k) && ArrayShape(v, k) && StringShape(v, k) && NumberShape(v, k)
    ensures ValuesAccepted(v, k) && ValuesAllowed(v, k) && Shapes(v, k)
  {}

  lemma FreeBranches(root: Json, v: Json, k: Keywords, st: State)
    requires OnlyUnique(k)
    ensures RunBranches(root, v, k, st, 0) == Outcome(true, st) && RunRef(root, v, root, k, st, 0) == Outcome(true, st)
  {
    hide Validate;
  }

  lemma UniqueRun(root: Json, v: Json, k: Keywords, st: State)
    requires OnlyUnique(k)
    ensures RunObject(root, v, root, k, st, 0).ok <==> UniqueAccepted(v, k)
  {
    FreeShapes(v, k);
    FreeBranches(root, v, k, st);
    if v.Obj? { FreeMembers(root, v.fields, k, st, 0); }
    hide UniqueAccepted, RunMembers, RunBranches, RunRef, ComparesDeepItems, TypesOk, ObjectShape, ArrayShape, StringShape, NumberShape,
         ValuesAccepted, Declares;
    assert Compared(st, v, k) == st;
  }

  lemma UniqueMeaning(root: Json, v: Json, k: Keywords)
    requires OnlyUnique(k)
    ensures UnsatObject(root, v, root, k, 0) <==> !Unique(v, k)
  {
    FreeShapes(v, k);
    FreeUnsat(root, v, k);
    hide Unique, Shapes, ValuesAllowed, RefUnsat, SomeUnsat, AnyUnsat, OneOfUnsat, NegatedUnsat, MembersUnsat, ItemsUnsat, OnlyUnique;
  }

  lemma FreeUnsat(root: Json, v: Json, k: Keywords)
    requires OnlyUnique(k)
    ensures !RefUnsat(root, v, root, k, 0) && !SomeUnsat(root, v, k.allOf, 0) && !AnyUnsat(root, v, k, 0) && !OneOfUnsat(root, v, k, 0)
    ensures !NegatedUnsat(root, v, k, 0) && !MembersUnsat(root, v, k, 0) && !ItemsUnsat(root, v, k, 0)
  {
    hide Sat, Unsat;
  }

  lemma RunIsVerdict(s: Json, v: Json)
    requires s.Obj?
    ensures Verdict(s, v) == RunObject(s, v, s, ReadKeywords(s.fields), START.(nodes := 1), 0)
  {
    hide RunObject, ReadKeywords;
  }

  /** The schema that only asks for unique items accepts a value it is violated by exactly on deep repetitions. */
  lemma UniqueSchemaErrsOnDeepOnly(v: Json)
    ensures Verdict(UNIQUE_SCHEMA, v).ok && Unsat(UNIQUE_SCHEMA, v, UNIQUE_SCHEMA, 1) <==>
            v.Arr? && Repeats(v.items, false) && !Repeats(v.items, true)
  {
    hide ReadKeywords, Repeats, RunObject, UnsatObject, Validate, Unique, UniqueAccepted, Verdict;
    var k := ReadKeywords(UNIQUE_SCHEMA.fields);
    UniqueKeywords();
    UniqueRun(UNIQUE_SCHEMA, v, k, START.(nodes := 1));
    RunIsVerdict(UNIQUE_SCHEMA, v);
    UniqueMeaning(UNIQUE_SCHEMA, v, k);
    NoTypesDeclareAll(k);
    if v.Arr? { UniqueMissesDeepOnly(v, k); } else { NothingToRepeat(v, k); }
  }

  lemma NoTypesDeclareAll(k: Keywords)
    requires OnlyUnique(k)
    ensures Declares(k, "array") && k.unique
  {}

  lemma NothingToRepeat(v: Json, k: Keywords)
    requires !v.Arr?
    ensures Unique(v, k)
  {}

  /** Two equal items nested 65 deep pass uniqueItems. */
  lemma DeepRepetitionAccepted()
    ensures var v := Arr([Nest(65), Nest(65)]);
            Verdict(UNIQUE_SCHEMA, v).ok && Unsat(UNIQUE_SCHEMA, v, UNIQUE_SCHEMA, 1)
  {
    hide Nest, Same, Shallow, Unsat, Verdict;
    var v := Arr([Nest(65), Nest(65)]);
    NestFacts(65, 0);
    PairRepeats(Nest(65));
    UniqueSchemaErrsOnDeepOnly(v);
  }

  lemma PairRepeats(x: Json)
    requires Same(x, x) && !Shallow(x, 0)
    ensures Repeats([x, x], false) && !Repeats([x, x], true)
  {
    hide Same, Shallow;
    var items := [x, x];
    assert Same(items[0], items[1]);
  }
}
