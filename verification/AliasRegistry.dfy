/**
 * The registry of response aliases: admission of a new alias evicts expired rows, the rows beyond
 * the newest 64 of its group and the rows beyond the newest 512, or fails without admitting it.
 */
module AliasRegistry {
  import opened Common

  const PER_GROUP := 64
  const TOTAL := 512

  datatype Row = Row(alias: string, generation: string, group: string, sequence: nat, expiresAt: int)

  /** alias_registry in ascending order of sequence, and alias_registry_meta. */
  datatype Registry = Registry(rows: seq<Row>, sequence: nat)

  datatype Registration = Registration(alias: string, generation: string, group: string, expiresAt: int)

  /** What the aliased object answers to an eviction; Unreachable is a call that throws. */
  datatype Verdict = WasEvicted | Absent | Mismatch | Busy | Unreachable

  datatype Outcome = Admitted | Invalid | CapacityExceeded | VictimBusy | VictimUnreachable

  const NEW_REGISTRY := Registry([], 0)

  // ---- selections ----

  function WithoutAlias(rows: seq<Row>, alias: string): (r: seq<Row>)
    ensures |r| <= |rows|
  {
    if rows == [] then []
    else (if rows[0].alias == alias then [] else [rows[0]]) + WithoutAlias(rows[1..], alias)
  }

  function WithoutRow(rows: seq<Row>, victim: Row): seq<Row> {
    if rows == [] then []
    else (if rows[0].alias == victim.alias && rows[0].generation == victim.generation then [] else [rows[0]]) + WithoutRow(rows[1..], victim)
  }

  function GroupCount(rows: seq<Row>, group: string): (n: nat)
    ensures n <= |rows|
  {
    if rows == [] then 0 else (if rows[0].group == group then 1 else 0) + GroupCount(rows[1..], group)
  }

  function Expired(rows: seq<Row>, now: int): seq<Row> {
    if rows == [] then [] else (if rows[0].expiresAt <= now then [rows[0]] else []) + Expired(rows[1..], now)
  }

  /** The group's rows that have at least PER_GROUP newer ones in the group. */
  function BeyondGroup(rows: seq<Row>, group: string): seq<Row> {
    if rows == [] then []
    else (if rows[0].group == group && GroupCount(rows[1..], group) >= PER_GROUP then [rows[0]] else []) + BeyondGroup(rows[1..], group)
  }

  /** The rows that have at least TOTAL newer ones. */
  function BeyondTotal(rows: seq<Row>): seq<Row> {
    if |rows| <= TOTAL then [] else rows[..|rows| - TOTAL]
  }

  function AddVictims(victims: seq<Row>, more: seq<Row>): seq<Row>
    decreases |more|
  {
    if more == [] then victims
    else AddVictims(if more[0] in victims then victims else victims + [more[0]], more[1..])
  }

  function Victims(rows: seq<Row>, group: string, now: int): seq<Row> {
    AddVictims(AddVictims(AddVictims([], Expired(rows, now)), BeyondGroup(rows, group)), BeyondTotal(rows))
  }

  // ---- registration ----

  predicate WellFormed(r: Registration, now: int) {
    r.alias != "" && r.generation != "" && r.group != "" && r.expiresAt > now
    && |r.alias| <= 256 && |r.generation| <= 128 && |r.group| <= 128
  }

  function Newest(s: Registry, r: Registration): Row {
    Row(r.alias, r.generation, r.group, s.sequence + 1, r.expiresAt)
  }

  /** The rows right after the insert or update. */
  function Entered(s: Registry, r: Registration): seq<Row> {
    WithoutAlias(s.rows, r.alias) + [Newest(s, r)]
  }

  /** Evict the victims in turn; stop at the first that cannot go. */
  function Sweep(rows: seq<Row>, victims: seq<Row>, newest: Row, verdict: Row -> Verdict): (seq<Row>, Outcome)
    decreases victims
  {
    if victims == [] then (rows, Admitted)
    else if victims[0].alias == newest.alias && victims[0].generation == newest.generation then (rows, CapacityExceeded)
    else if verdict(victims[0]) == Unreachable then (rows, VictimUnreachable)
    else if verdict(victims[0]) == Busy then (rows, VictimBusy)
    else Sweep(WithoutRow(rows, victims[0]), victims[1..], newest, verdict)
  }

  function Register(s: Registry, r: Registration, now: int, verdict: Row -> Verdict): (Registry, Outcome) {
    if !WellFormed(r, now) then (s, Invalid)
    else
      var rows := Entered(s, r);
      var swept := Sweep(rows, Victims(rows, r.group, now), Newest(s, r), verdict);
      (Registry(if swept.1 == Admitted then swept.0 else WithoutRow(swept.0, Newest(s, r)), s.sequence + 1), swept.1)
  }

  /** A confirmed eviction at the registry's own expiry, or an alias reporting its own end. */
  function Unregister(s: Registry, alias: string, generation: string): Registry {
    s.(rows := WithoutRow(s.rows, Row(alias, generation, "", 0, 0)))
  }

  // ---- the invariant ----

  ghost predicate Ascending(rows: seq<Row>) {
    forall i, j :: 0 <= i < j < |rows| ==> rows[i].sequence < rows[j].sequence && rows[i].alias != rows[j].alias
  }

  ghost predicate Inv(s: Registry) {
    && Ascending(s.rows) && (forall i :: 0 <= i < |s.rows| ==> s.rows[i].sequence <= s.sequence)
    && |s.rows| <= TOTAL && forall g :: GroupCount(s.rows, g) <= PER_GROUP
  }

  /** sub lists some of the rows, in the same order. */
  ghost predicate Sublist(sub: seq<Row>, rows: seq<Row>)
    decreases rows
  {
    if sub == [] then true
    else if rows == [] then false
    else (sub[0] == rows[0] && Sublist(sub[1..], rows[1..])) || Sublist(sub, rows[1..])
  }

  lemma {:induction false} SublistItself(rows: seq<Row>)
    ensures Sublist(rows, rows)
  {
    if rows != [] { SublistItself(rows[1..]); }
  }

  lemma {:induction false} SublistTrans(a: seq<Row>, b: seq<Row>, c: seq<Row>)
    requires Sublist(a, b) && Sublist(b, c)
    ensures Sublist(a, c)
    decreases |b| + |c|
  {
    if a != [] {
      if b[0] == c[0] && Sublist(b[1..], c[1..]) {
        if a[0] == b[0] && Sublist(a[1..], b[1..]) {
          SublistTrans(a[1..], b[1..], c[1..]);
        } else {
          SublistTrans(a, b[1..], c[1..]);
        }
      } else {
        SublistTrans(a, b, c[1..]);
      }
    }
  }

  lemma {:induction false} SublistCounts(a: seq<Row>, b: seq<Row>, g: string)
    requires Sublist(a, b)
    ensures |a| <= |b| && GroupCount(a, g) <= GroupCount(b, g)
    decreases |b|
  {
    if a != [] {
      if a[0] == b[0] && Sublist(a[1..], b[1..]) {
        SublistCounts(a[1..], b[1..], g);
      } else {
        SublistCounts(a, b[1..], g);
      }
    }
  }

  lemma {:induction false} SublistMembers(a: seq<Row>, b: seq<Row>)
    requires Sublist(a, b)
    ensures forall x :: x in a ==> x in b
    decreases |b|
  {
    if a != [] {
      assert forall x :: x in b[1..] ==> x in b;
      if a[0] == b[0] && Sublist(a[1..], b[1..]) {
        SublistMembers(a[1..], b[1..]);
        assert forall x :: x in a ==> x == a[0] || x in a[1..];
      } else {
        SublistMembers(a, b[1..]);
      }
    }
  }

  lemma {:induction false} SublistAscends(a: seq<Row>, b: seq<Row>)
    requires Sublist(a, b) && Ascending(b)
    ensures Ascending(a)
    decreases |b|
  {
    if a != [] {
      if a[0] == b[0] && Sublist(a[1..], b[1..]) {
        SublistAscends(a[1..], b[1..]);
        SublistMembers(a[1..], b[1..]);
        forall j | 0 < j < |a| ensures a[0].sequence < a[j].sequence && a[0].alias != a[j].alias {
          assert a[1..][j - 1] in b[1..];
        }
      } else {
        SublistAscends(a, b[1..]);
      }
    }
  }

  lemma {:induction false} WithoutAliasIs(rows: seq<Row>, alias: string)
    ensures Sublist(WithoutAlias(rows, alias), rows)
    ensures forall x :: x in WithoutAlias(rows, alias) <==> x in rows && x.alias != alias
  {
    if rows != [] {
      WithoutAliasIs(rows[1..], alias);
      assert rows[0].alias != alias ==> WithoutAlias(rows, alias)[1..] == WithoutAlias(rows[1..], alias);
      assert rows[0].alias == alias ==> WithoutAlias(rows, alias) == WithoutAlias(rows[1..], alias);
    }
  }

  predicate Is(x: Row, victim: Row) {
    x.alias == victim.alias && x.generation == victim.generation
  }

  lemma {:induction false} WithoutRowIs(rows: seq<Row>, victim: Row)
    ensures Sublist(WithoutRow(rows, victim), rows)
    ensures forall x :: x in WithoutRow(rows, victim) <==> x in rows && !Is(x, victim)
  {
    if rows != [] {
      WithoutRowIs(rows[1..], victim);
      assert !Is(rows[0], victim) ==> WithoutRow(rows, victim)[1..] == WithoutRow(rows[1..], victim);
      assert Is(rows[0], victim) ==> WithoutRow(rows, victim) == WithoutRow(rows[1..], victim);
    }
  }

  lemma {:induction false} SweepRemovesOnly(rows: seq<Row>, victims: seq<Row>, newest: Row, verdict: Row -> Verdict)
    ensures var r := Sweep(rows, victims, newest, verdict);
            Sublist(r.0, rows)
            && (forall x :: x in rows && x !in r.0 ==> exists v :: v in victims && Is(x, v) && verdict(v) != Busy && verdict(v) != Unreachable)
            && (r.1 == Admitted ==> forall v :: v in victims ==>
                  !Is(newest, v) && verdict(v) != Busy && verdict(v) != Unreachable && forall x :: x in r.0 ==> !Is(x, v))
            && (r.1 == CapacityExceeded ==> exists v :: v in victims && Is(newest, v))
    decreases victims
  {
    var r := Sweep(rows, victims, newest, verdict);
    SublistItself(rows);
    if victims != [] && !Is(victims[0], newest) && verdict(victims[0]) != Busy && verdict(victims[0]) != Unreachable {
      var less := WithoutRow(rows, victims[0]);
      SweepRemovesOnly(less, victims[1..], newest, verdict);
      WithoutRowIs(rows, victims[0]);
      SublistTrans(r.0, less, rows);
      SublistMembers(r.0, less);
      assert forall v :: v in victims <==> v == victims[0] || v in victims[1..];
    } else if victims != [] {
      assert victims[0] in victims;
    }
  }

  // ---- who is a victim ----

  lemma {:induction false} AddedVictims(victims: seq<Row>, more: seq<Row>)
    ensures forall x :: x in AddVictims(victims, more) <==> x in victims || x in more
    decreases |more|
  {
    if more != [] {
      AddedVictims(if more[0] in victims then victims else victims + [more[0]], more[1..]);
      assert more == [more[0]] + more[1..];
    }
  }

  lemma {:induction false} ExpiredAre(rows: seq<Row>, now: int)
    ensures forall x :: x in Expired(rows, now) <==> x in rows && x.expiresAt <= now
  {
    if rows != [] {
      ExpiredAre(rows[1..], now);
      assert rows == [rows[0]] + rows[1..];
    }
  }

  /** The row at position i has at least PER_GROUP newer rows of the group. */
  predicate OldInGroup(rows: seq<Row>, group: string, i: nat)
    requires i < |rows|
  {
    rows[i].group == group && GroupCount(rows[i + 1..], group) >= PER_GROUP
  }

  lemma {:induction false} BeyondGroupAre(rows: seq<Row>, group: string)
    ensures forall x :: x in BeyondGroup(rows, group) <==> exists i :: 0 <= i < |rows| && rows[i] == x && OldInGroup(rows, group, i)
  {
    if rows != [] {
      var tail := rows[1..];
      BeyondGroupAre(tail, group);
      forall i | 0 <= i < |tail| ensures tail[i] == rows[i + 1] && OldInGroup(tail, group, i) == OldInGroup(rows, group, i + 1) {
        assert tail[i + 1..] == rows[i + 2..];
      }
      forall x | x in BeyondGroup(rows, group) ensures exists i :: 0 <= i < |rows| && rows[i] == x && OldInGroup(rows, group, i) {
        if x in BeyondGroup(tail, group) {
          var i :| 0 <= i < |tail| && tail[i] == x && OldInGroup(tail, group, i);
          assert rows[i + 1] == x && OldInGroup(rows, group, i + 1);
        } else {
          assert rows[0] == x && OldInGroup(rows, group, 0);
        }
      }
      forall i | 0 <= i < |rows| && OldInGroup(rows, group, i) ensures rows[i] in BeyondGroup(rows, group) {
        if i > 0 {
          assert OldInGroup(tail, group, i - 1);
          assert tail[i - 1] in BeyondGroup(tail, group);
        }
      }
    }
  }

  /** Position i is a victim: expired, too old in its group, or too old in the registry. */
  predicate IsVictim(rows: seq<Row>, group: string, now: int, i: nat)
    requires i < |rows|
  {
    rows[i].expiresAt <= now || OldInGroup(rows, group, i) || |rows| - i > TOTAL
  }

  lemma VictimsAre(rows: seq<Row>, group: string, now: int)
    ensures forall x :: x in Victims(rows, group, now) <==> exists i :: 0 <= i < |rows| && rows[i] == x && IsVictim(rows, group, now, i)
  {
    hide OldInGroup, Expired, BeyondGroup, AddVictims;
    var a := AddVictims([], Expired(rows, now));
    var b := AddVictims(a, BeyondGroup(rows, group));
    AddedVictims([], Expired(rows, now));
    AddedVictims(a, BeyondGroup(rows, group));
    AddedVictims(b, BeyondTotal(rows));
    ExpiredAre(rows, now);
    BeyondGroupAre(rows, group);
    forall i | 0 <= i < |rows| && IsVictim(rows, group, now, i) ensures rows[i] in Victims(rows, group, now) {
      if |rows| - i > TOTAL { assert BeyondTotal(rows)[i] == rows[i]; }
    }
    forall x | x in BeyondTotal(rows) ensures exists i :: 0 <= i < |rows| && rows[i] == x && IsVictim(rows, group, now, i) {
      var i :| 0 <= i < |BeyondTotal(rows)| && BeyondTotal(rows)[i] == x;
      assert rows[i] == x && IsVictim(rows, group, now, i);
    }
    forall x | x in Expired(rows, now) ensures exists i :: 0 <= i < |rows| && rows[i] == x && IsVictim(rows, group, now, i) {
      var i :| 0 <= i < |rows| && rows[i] == x;
      assert IsVictim(rows, group, now, i);
    }
  }

  // ---- the bounds ----

  lemma {:induction false} NotFirst(a: seq<Row>, rows: seq<Row>)
    requires rows != [] && Sublist(a, rows) && rows[0] !in a
    ensures Sublist(a, rows[1..])
  {
    if a != [] { assert a[0] in a; }
  }

  /** Without the rows beyond the newest 64, a group has at most 64. */
  lemma {:induction false} GroupBound(a: seq<Row>, rows: seq<Row>, group: string)
    requires Sublist(a, rows) && forall x :: x in a ==> x !in BeyondGroup(rows, group)
    ensures GroupCount(a, group) <= PER_GROUP
    decreases |rows|
  {
    SublistCounts(a, rows, group);
    if rows != [] && GroupCount(rows, group) > PER_GROUP {
      assert forall x :: x in BeyondGroup(rows[1..], group) ==> x in BeyondGroup(rows, group);
      if rows[0].group == group {
        assert rows[0] in BeyondGroup(rows, group);
        NotFirst(a, rows);
        GroupBound(a, rows[1..], group);
      } else {
        GroupBoundLater(a, rows, group);
      }
    }
  }

  /** A first row of another group does not count. */
  lemma {:induction false} GroupBoundLater(a: seq<Row>, rows: seq<Row>, group: string)
    requires rows != [] && rows[0].group != group && Sublist(a, rows) && forall x :: x in a ==> x !in BeyondGroup(rows[1..], group)
    ensures GroupCount(a, group) <= PER_GROUP
    decreases |rows|, 0
  {
    if a != [] && a[0] == rows[0] && Sublist(a[1..], rows[1..]) {
      assert forall x :: x in a[1..] ==> x in a;
      GroupBound(a[1..], rows[1..], group);
    } else if a != [] {
      GroupBound(a, rows[1..], group);
    }
  }

  lemma {:induction false} TotalBound(a: seq<Row>, rows: seq<Row>)
    requires Sublist(a, rows) && forall x :: x in a ==> x !in BeyondTotal(rows)
    ensures |a| <= TOTAL
    decreases |rows|
  {
    SublistCounts(a, rows, "");
    if |rows| > TOTAL {
      assert BeyondTotal(rows)[0] == rows[0];
      NotFirst(a, rows);
      if |rows[1..]| > TOTAL {
        assert forall x :: x in BeyondTotal(rows[1..]) ==> x in BeyondTotal(rows) by {
          assert BeyondTotal(rows) == [rows[0]] + BeyondTotal(rows[1..]);
        }
      }
      TotalBound(a, rows[1..]);
    }
  }

  lemma EnteredAscends(s: Registry, r: Registration)
    requires Inv(s)
    ensures Ascending(Entered(s, r)) && forall i :: 0 <= i < |Entered(s, r)| ==> Entered(s, r)[i].sequence <= s.sequence + 1
  {
    hide GroupCount;
    WithoutAliasIs(s.rows, r.alias);
    SublistAscends(WithoutAlias(s.rows, r.alias), s.rows);
    var kept := WithoutAlias(s.rows, r.alias);
    forall i | 0 <= i < |kept| ensures kept[i].sequence <= s.sequence && kept[i].alias != r.alias {
      assert kept[i] in kept;
      assert kept[i] in s.rows;
    }
  }

  lemma {:induction false} GroupCountAppend(rows: seq<Row>, x: Row, g: string)
    ensures GroupCount(rows + [x], g) == GroupCount(rows, g) + if x.group == g then 1 else 0
  {
    if rows == [] {
      assert [] + [x] == [x];
    } else {
      GroupCountAppend(rows[1..], x, g);
      assert (rows + [x])[1..] == rows[1..] + [x];
    }
  }

  /** The row being admitted is the newest, so it is never its own victim. */
  lemma NewestIsNoVictim(s: Registry, r: Registration, now: int)
    requires Inv(s) && WellFormed(r, now)
    ensures forall v :: v in Victims(Entered(s, r), r.group, now) ==> v.alias != r.alias
  {
    hide GroupCount, Victims, Inv;
    var rows := Entered(s, r);
    EnteredAscends(s, r);
    VictimsAre(rows, r.group, now);
    var n := |rows| - 1;
    assert rows[n + 1..] == [];
    NoRows(r.group);
    assert !IsVictim(rows, r.group, now, n);
    forall v | v in Victims(rows, r.group, now) ensures v.alias != r.alias {
      var i :| 0 <= i < |rows| && rows[i] == v && IsVictim(rows, r.group, now, i);
      assert i < n && rows[i].alias != rows[n].alias;
    }
  }

  lemma NoRows(g: string)
    ensures GroupCount([], g) == 0
  {}

  lemma SubKeepsInv(s: Registry, rows: seq<Row>, full: seq<Row>, sequence: nat)
    requires Sublist(rows, full) && Ascending(full) && forall i :: 0 <= i < |full| ==> full[i].sequence <= sequence
    requires |rows| <= TOTAL && forall g :: GroupCount(rows, g) <= PER_GROUP
    ensures Inv(Registry(rows, sequence))
  {
    hide GroupCount, Sublist;
    SublistAscends(rows, full);
    SublistMembers(rows, full);
    forall i | 0 <= i < |rows| ensures rows[i].sequence <= sequence {
      assert rows[i] in full;
    }
  }

  /** What registration does to the rows when it succeeds. */
  lemma AdmittedBounds(s: Registry, r: Registration, now: int, verdict: Row -> Verdict)
    requires Inv(s) && WellFormed(r, now) && Register(s, r, now, verdict).1 == Admitted
    ensures Inv(Register(s, r, now, verdict).0)
  {
    hide GroupCount, Victims, Sublist, Sweep, BeyondGroup, BeyondTotal, WellFormed;
    var full := Entered(s, r);
    var rows := Register(s, r, now, verdict).0.rows;
    EnteredAscends(s, r);
    SweepRemovesOnly(full, Victims(full, r.group, now), Newest(s, r), verdict);
    VictimsInclude(full, r.group, now);
    forall x | x in rows ensures x !in Victims(full, r.group, now) {}
    TotalBound(rows, full);
    GroupBound(rows, full, r.group);
    forall g ensures GroupCount(rows, g) <= PER_GROUP {
      if g != r.group {
        SublistCounts(rows, full, g);
        GroupCountAppend(WithoutAlias(s.rows, r.alias), Newest(s, r), g);
        WithoutAliasIs(s.rows, r.alias);
        SublistCounts(WithoutAlias(s.rows, r.alias), s.rows, g);
      }
    }
    SubKeepsInv(s, rows, full, s.sequence + 1);
  }

  lemma VictimsInclude(rows: seq<Row>, group: string, now: int)
    ensures forall x :: x in BeyondGroup(rows, group) || x in BeyondTotal(rows) ==> x in Victims(rows, group, now)
  {
    hide BeyondGroup, BeyondTotal, AddVictims;
    var a := AddVictims([], Expired(rows, now));
    AddedVictims(a, BeyondGroup(rows, group));
    AddedVictims(AddVictims(a, BeyondGroup(rows, group)), BeyondTotal(rows));
  }

  /** Without the row just entered, what is left are old rows. */
  lemma {:induction false} DropLast(a: seq<Row>, kept: seq<Row>, newest: Row)
    requires Sublist(a, kept + [newest]) && newest !in a
    ensures Sublist(a, kept)
    decreases |kept|
  {
    assert a != [] ==> a[0] in a;
    if kept == [] {
      assert kept + [newest] == [newest];
      assert a == [];
    } else if a != [] {
      assert (kept + [newest])[1..] == kept[1..] + [newest];
      if a[0] == kept[0] && Sublist(a[1..], kept[1..] + [newest]) {
        assert forall x :: x in a[1..] ==> x in a;
        DropLast(a[1..], kept[1..], newest);
      } else {
        DropLast(a, kept[1..], newest);
      }
    }
  }

  lemma RefusedRows(s: Registry, r: Registration, now: int, verdict: Row -> Verdict)
    requires Inv(s) && WellFormed(r, now) && Register(s, r, now, verdict).1 != Admitted
    ensures Sublist(Register(s, r, now, verdict).0.rows, WithoutAlias(s.rows, r.alias))
  {
    hide GroupCount, Victims, Sublist, Sweep, WellFormed, Inv;
    var full := Entered(s, r);
    var swept := Sweep(full, Victims(full, r.group, now), Newest(s, r), verdict).0;
    SweepRemovesOnly(full, Victims(full, r.group, now), Newest(s, r), verdict);
    WithoutRowIs(swept, Newest(s, r));
    SublistTrans(WithoutRow(swept, Newest(s, r)), swept, full);
    DropLast(WithoutRow(swept, Newest(s, r)), WithoutAlias(s.rows, r.alias), Newest(s, r));
  }

  /** After every registration, successful or not, each group has at most 64 rows and the registry 512. */
  lemma RegisterKeepsBounds(s: Registry, r: Registration, now: int, verdict: Row -> Verdict)
    requires Inv(s)
    ensures Inv(Register(s, r, now, verdict).0)
  {
    hide GroupCount, Victims, Sublist, Sweep, WellFormed;
    if WellFormed(r, now) {
      if Register(s, r, now, verdict).1 == Admitted {
        AdmittedBounds(s, r, now, verdict);
      } else {
        var rows := Register(s, r, now, verdict).0.rows;
        RefusedRows(s, r, now, verdict);
        WithoutAliasIs(s.rows, r.alias);
        SublistTrans(rows, WithoutAlias(s.rows, r.alias), s.rows);
        SublistCounts(rows, s.rows, r.group);
        forall g ensures GroupCount(rows, g) <= PER_GROUP { SublistCounts(rows, s.rows, g); }
        SubKeepsInv(s, rows, s.rows, s.sequence + 1);
      }
    }
  }

  /** On success the survivors are exactly the old rows and the new one, minus the victims, in order. */
  lemma AdmittedExactly(s: Registry, r: Registration, now: int, verdict: Row -> Verdict)
    requires Inv(s) && Register(s, r, now, verdict).1 == Admitted
    ensures var full := Entered(s, r); var rows := Register(s, r, now, verdict).0.rows;
            Sublist(rows, full) && Newest(s, r) in rows
            && forall i :: 0 <= i < |full| ==> (full[i] in rows <==> !IsVictim(full, r.group, now, i))
  {
    hide GroupCount, Victims, Sublist, Sweep, IsVictim;
    var full := Entered(s, r);
    var rows := Register(s, r, now, verdict).0.rows;
    EnteredAscends(s, r);
    VictimsAre(full, r.group, now);
    SweepRemovesOnly(full, Victims(full, r.group, now), Newest(s, r), verdict);
    NewestIsNoVictim(s, r, now);
    assert forall x :: x in rows ==> Is(x, x) && x !in Victims(full, r.group, now);
    forall i | 0 <= i < |full| ensures full[i] in rows <==> !IsVictim(full, r.group, now, i) {
      if full[i] !in rows {
        var v :| v in Victims(full, r.group, now) && Is(full[i], v);
        var j :| 0 <= j < |full| && full[j] == v && IsVictim(full, r.group, now, j);
        assert i == j;
      }
    }
    assert full[|full| - 1] == Newest(s, r);
  }

  /** A refused registration leaves the alias out, and evicted nothing that was busy or unreachable. */
  lemma RefusedSafely(s: Registry, r: Registration, now: int, verdict: Row -> Verdict)
    requires Inv(s) && WellFormed(r, now) && Register(s, r, now, verdict).1 != Admitted
    ensures var t := Register(s, r, now, verdict).0;
            (forall x :: x in t.rows ==> x in s.rows && x.alias != r.alias)
            && forall x :: x in s.rows && x.alias != r.alias && x !in t.rows ==> verdict(x) != Busy && verdict(x) != Unreachable
  {
    hide GroupCount, Sublist, Sweep, WellFormed, Victims;
    var full := Entered(s, r);
    var victims := Victims(full, r.group, now);
    var swept := Sweep(full, victims, Newest(s, r), verdict).0;
    var t := Register(s, r, now, verdict).0;
    RefusedRows(s, r, now, verdict);
    WithoutAliasIs(s.rows, r.alias);
    SublistMembers(t.rows, WithoutAlias(s.rows, r.alias));
    SweepRemovesOnly(full, victims, Newest(s, r), verdict);
    WithoutRowIs(swept, Newest(s, r));
    EnteredAscends(s, r);
    VictimsAre(full, r.group, now);
    forall x | x in s.rows && x.alias != r.alias && x !in t.rows ensures verdict(x) != Busy && verdict(x) != Unreachable {
      assert x in WithoutAlias(s.rows, r.alias);
      assert x in full && x !in swept;
      var v :| v in victims && Is(x, v) && verdict(v) != Busy && verdict(v) != Unreachable;
      var j :| 0 <= j < |full| && full[j] == v;
      var i :| 0 <= i < |full| && full[i] == x;
      assert i == j;
    }
  }

  lemma {:induction false} SweepStops(rows: seq<Row>, victims: seq<Row>, newest: Row, verdict: Row -> Verdict)
    ensures Sweep(rows, victims, newest, verdict).1 == Admitted <==>
            forall v :: v in victims ==> !Is(v, newest) && verdict(v) != Busy && verdict(v) != Unreachable
    decreases victims
  {
    if victims != [] {
      SweepStops(WithoutRow(rows, victims[0]), victims[1..], newest, verdict);
      assert forall v :: v in victims <==> v == victims[0] || v in victims[1..];
    }
  }

  /** A registration is admitted exactly when no victim is busy or unreachable. */
  lemma AdmittedIffVictimsGo(s: Registry, r: Registration, now: int, verdict: Row -> Verdict)
    requires Inv(s) && WellFormed(r, now)
    ensures var full := Entered(s, r);
            Register(s, r, now, verdict).1 == Admitted <==>
              forall i :: 0 <= i < |full| && IsVictim(full, r.group, now, i) ==> verdict(full[i]) != Busy && verdict(full[i]) != Unreachable
  {
    hide GroupCount, Sublist, Sweep, Victims, IsVictim, WellFormed;
    var full := Entered(s, r);
    var victims := Victims(full, r.group, now);
    EnteredAscends(s, r);
    VictimsAre(full, r.group, now);
    NewestIsNoVictim(s, r, now);
    SweepStops(full, victims, Newest(s, r), verdict);
    forall i | 0 <= i < |full| && IsVictim(full, r.group, now, i) ensures full[i] in victims {}
    forall v | v in victims ensures exists i :: 0 <= i < |full| && full[i] == v && IsVictim(full, r.group, now, i) {}
  }

  /** The capacity error is never raised. */
  lemma CapacityIsNeverExceeded(s: Registry, r: Registration, now: int, verdict: Row -> Verdict)
    requires Inv(s)
    ensures Register(s, r, now, verdict).1 != CapacityExceeded
  {
    hide Inv, GroupCount, Victims, Sublist, Sweep, WellFormed;
    if WellFormed(r, now) {
      NewestIsNoVictim(s, r, now);
      SweepRemovesOnly(Entered(s, r), Victims(Entered(s, r), r.group, now), Newest(s, r), verdict);
    }
  }

  // ---- whole runs ----

  lemma UnregisterKeepsBounds(s: Registry, alias: string, generation: string)
    requires Inv(s)
    ensures Inv(Unregister(s, alias, generation))
  {
    hide GroupCount, Sublist, WithoutRow;
    var victim := Row(alias, generation, "", 0, 0);
    var rows := WithoutRow(s.rows, victim);
    WithoutRowIs(s.rows, victim);
    SublistCounts(rows, s.rows, "");
    forall g ensures GroupCount(rows, g) <= PER_GROUP { SublistCounts(rows, s.rows, g); }
    SubKeepsInv(s, rows, s.rows, s.sequence);
  }

  datatype Operation =
    | Registers(r: Registration, now: int, verdict: Row -> Verdict)
    | Unregisters(alias: string, generation: string)

  function Apply(s: Registry, o: Operation): Registry {
    match o
    case Registers(r, now, verdict) => Register(s, r, now, verdict).0
    case Unregisters(alias, generation) => Unregister(s, alias, generation)
  }

  function ApplyAll(s: Registry, operations: seq<Operation>): Registry {
    if operations == [] then s
    else Apply(ApplyAll(s, operations[..|operations| - 1]), operations[|operations| - 1])
  }

  /** After any registrations and removals, in any order and with any answers from the victims, both bounds hold. */
  lemma {:induction false} BoundsAlwaysHold(operations: seq<Operation>)
    ensures Inv(ApplyAll(NEW_REGISTRY, operations))
  {
    if operations == [] {
      EmptyRegistry();
    } else {
      hide Inv, Register, Unregister;
      var n := |operations| - 1;
      var s := ApplyAll(NEW_REGISTRY, operations[..n]);
      BoundsAlwaysHold(operations[..n]);
      match operations[n]
      case Registers(r, now, verdict) => RegisterKeepsBounds(s, r, now, verdict);
      case Unregisters(alias, generation) => UnregisterKeepsBounds(s, alias, generation);
    }
  }

  lemma EmptyRegistry()
    ensures Inv(NEW_REGISTRY)
  {
    assert forall g :: GroupCount([], g) == 0;
  }

  // ---- the object ----

  class AliasRegistry {
    var rows: seq<Row>
    var nextSequence: nat

    ghost function State(): Registry
      reads this
    {
      Registry(rows, nextSequence)
    }

    constructor ()
      ensures State() == NEW_REGISTRY && Inv(State())
    {
      rows, nextSequence := [], 0;
      new;
      EmptyRegistry();
    }

    method UnregisterRow(alias: string, generation: string)
      modifies this`rows
      ensures rows == WithoutRow(old(rows), Row(alias, generation, "", 0, 0))
      ensures forall v: Row :: v.alias == alias && v.generation == generation ==> rows == WithoutRow(old(rows), v)
    {
      forall v: Row | v.alias == alias && v.generation == generation
        ensures WithoutRow(rows, Row(alias, generation, "", 0, 0)) == WithoutRow(rows, v)
      {
        SameIdentity(rows, Row(alias, generation, "", 0, 0), v);
      }
      rows := WithoutRow(rows, Row(alias, generation, "", 0, 0));
    }

    /** An alias reports its own end, or the sweep of expired rows removes it. */
    method UnregisterResponseAlias(alias: string, generation: string)
      requires Inv(State())
      modifies this`rows
      ensures State() == Unregister(old(State()), alias, generation) && Inv(State())
    {
      UnregisterKeepsBounds(State(), alias, generation);
      UnregisterRow(alias, generation);
    }

    /** registerResponseAliasLocked; `verdict` is what each victim's object answers. */
    method RegisterResponseAlias(r: Registration, now: int, verdict: Row -> Verdict) returns (outcome: Outcome)
      requires Inv(State())
      modifies this
      ensures State() == Register(old(State()), r, now, verdict).0 && outcome == Register(old(State()), r, now, verdict).1
      ensures Inv(State())
      ensures outcome != CapacityExceeded
    {
      hide GroupCount, Inv, WithoutRow, WithoutAlias, Victims, WellFormed;
      ghost var s := State();
      RegisterKeepsBounds(s, r, now, verdict);
      CapacityIsNeverExceeded(s, r, now, verdict);
      if !WellFormed(r, now) {
        return Invalid;
      }
      nextSequence := nextSequence + 1;
      var newest := Row(r.alias, r.generation, r.group, nextSequence, r.expiresAt);
      rows := WithoutAlias(rows, r.alias) + [newest];
      var victims := Victims(rows, r.group, now);
      ghost var sweep := Sweep(rows, victims, newest, verdict);
      var i := 0;
      while i < |victims|
        invariant i <= |victims| && nextSequence == s.sequence + 1
        invariant sweep == Sweep(rows, victims[i..], newest, verdict)
      {
        assert victims[i..][1..] == victims[i + 1..];
        var victim := victims[i];
        outcome := if victim.alias == newest.alias && victim.generation == newest.generation then CapacityExceeded
                   else if verdict(victim) == Unreachable then VictimUnreachable
                   else if verdict(victim) == Busy then VictimBusy else Admitted;
        if outcome != Admitted {
          UnregisterRow(r.alias, r.generation);
          return;
        }
        UnregisterRow(victim.alias, victim.generation);
        i := i + 1;
      }
      outcome := Admitted;
    }
  }

  lemma {:induction false} SameIdentity(rows: seq<Row>, v: Row, w: Row)
    requires Is(v, w)
    ensures WithoutRow(rows, v) == WithoutRow(rows, w)
  {
    if rows != [] { SameIdentity(rows[1..], v, w); }
  }
}
