/**
 * The bounded memory of task references: the first target and the three most recent others.
 * References are in normal form, so normalising them again changes nothing.
 */
module TaskAnchors {
  import opened Common

  const MAX_TASK_ANCHORS := 4

  datatype Kind = WindowsPath | UncPath | UnixPath | Url | Server

  datatype Anchor = Anchor(kind: Kind, value: string)

  /** Case, and for Windows paths the slash direction, do not distinguish references. */
  function Folded(s: string, slashes: bool): string {
    if s == [] then []
    else [if slashes && s[0] == '/' then '\\' else LowerChar(s[0])] + Folded(s[1..], slashes)
  }

  /** anchorKey */
  function Key(a: Anchor): (Kind, string) {
    match a.kind
    case WindowsPath => (a.kind, Folded(a.value, true))
    case UncPath => (a.kind, Folded(a.value, true))
    case Url => (a.kind, Folded(a.value, false))
    case _ => (a.kind, a.value)
  }

  // ---- the merge ----

  /** Where the key stands, |s| if nowhere. */
  function Find(s: seq<Anchor>, k: (Kind, string)): (i: nat)
    ensures i <= |s| && (i < |s| ==> Key(s[i]) == k)
  {
    if s == [] || Key(s[0]) == k then 0 else 1 + Find(s[1..], k)
  }

  function Removed(s: seq<Anchor>, i: nat): seq<Anchor>
    requires i < |s|
  {
    s[..i] + s[i + 1..]
  }

  /** A new reference goes last; a repeated one moves last, unless it is the first target. */
  function Step(ordered: seq<Anchor>, a: Anchor): seq<Anchor> {
    var i := Find(ordered, Key(a));
    if i == |ordered| then ordered + [a]
    else if i == 0 then ordered
    else Removed(ordered, i) + [a]
  }

  function Fold(ordered: seq<Anchor>, anchors: seq<Anchor>): seq<Anchor>
    decreases |anchors|
  {
    if anchors == [] then ordered else Fold(Step(ordered, anchors[0]), anchors[1..])
  }

  function Bounded(ordered: seq<Anchor>): (r: seq<Anchor>)
    ensures |r| <= MAX_TASK_ANCHORS
  {
    if |ordered| <= MAX_TASK_ANCHORS then ordered
    else [ordered[0]] + ordered[|ordered| - (MAX_TASK_ANCHORS - 1)..]
  }

  function Merge(anchors: seq<Anchor>): seq<Anchor> {
    Bounded(Fold([], anchors))
  }

  function Flatten(groups: seq<seq<Anchor>>): seq<Anchor> {
    if groups == [] then [] else groups[0] + Flatten(groups[1..])
  }

  // ---- distinct keys ----

  ghost predicate Distinct(s: seq<Anchor>) {
    forall i, j :: 0 <= i < j < |s| ==> Key(s[i]) != Key(s[j])
  }

  lemma {:induction false} FindMisses(s: seq<Anchor>, k: (Kind, string))
    ensures forall i :: 0 <= i < Find(s, k) ==> Key(s[i]) != k
  {
    hide Key;
    if s != [] && Key(s[0]) != k {
      FindMisses(s[1..], k);
      assert forall i :: 0 < i < |s| ==> s[i] == s[1..][i - 1];
    }
  }

  /** In a list of distinct keys, the key of position i is found there. */
  lemma FindAt(s: seq<Anchor>, i: nat)
    requires Distinct(s) && i < |s|
    ensures Find(s, Key(s[i])) == i
  {
    hide Key, Find;
    FindMisses(s, Key(s[i]));
    var f := Find(s, Key(s[i]));
    assert f < |s| && Key(s[f]) == Key(s[i]);
  }

  lemma FindNothing(s: seq<Anchor>, k: (Kind, string))
    requires forall i :: 0 <= i < |s| ==> Key(s[i]) != k
    ensures Find(s, k) == |s|
  {
    hide Key, Find;
    var i := Find(s, k);
  }

  lemma StepIsDistinct(s: seq<Anchor>, a: Anchor)
    requires Distinct(s)
    ensures Distinct(Step(s, a)) && Step(s, a) != []
  {
    hide Key, Find;
    FindMisses(s, Key(a));
    var i := Find(s, Key(a));
    if 0 < i < |s| {
      var r := Step(s, a);
      forall p, q | 0 <= p < q < |r| ensures Key(r[p]) != Key(r[q]) {
        var p' := if p < i then p else p + 1;
        if q < |r| - 1 {
          var q' := if q < i then q else q + 1;
          assert r[p] == s[p'] && r[q] == s[q'];
        } else {
          assert r[q] == a && r[p] == s[p'] && Key(s[i]) == Key(a);
          assert p' < i || i < p';
        }
      }
    }
  }

  lemma {:induction false} FoldIsDistinct(s: seq<Anchor>, anchors: seq<Anchor>)
    requires Distinct(s)
    ensures Distinct(Fold(s, anchors))
    decreases |anchors|
  {
    hide Key, Step;
    if anchors != [] {
      StepIsDistinct(s, anchors[0]);
      FoldIsDistinct(Step(s, anchors[0]), anchors[1..]);
    }
  }

  lemma {:induction false} FoldConcat(s: seq<Anchor>, a: seq<Anchor>, b: seq<Anchor>)
    ensures Fold(s, a + b) == Fold(Fold(s, a), b)
    decreases |a|
  {
    hide Step;
    if a == [] {
      assert a + b == b;
    } else {
      assert (a + b)[1..] == a[1..] + b;
      FoldConcat(Step(s, a[0]), a[1..], b);
    }
  }

  /** Folding further distinct references only appends them. */
  lemma {:induction false} FoldNew(s: seq<Anchor>, a: seq<Anchor>)
    requires Distinct(s + a)
    ensures Fold(s, a) == s + a
    decreases |a|
  {
    hide Key, Find;
    if a == [] {
      assert s + a == s;
    } else {
      forall i | 0 <= i < |s| ensures Key(s[i]) != Key(a[0]) {
        assert (s + a)[i] == s[i] && (s + a)[|s|] == a[0];
      }
      FindNothing(s, Key(a[0]));
      assert s + [a[0]] + a[1..] == s + a;
      FoldNew(s + [a[0]], a[1..]);
    }
  }

  lemma BoundedIsDistinct(s: seq<Anchor>)
    requires Distinct(s)
    ensures Distinct(Bounded(s))
  {
    hide Key;
    var r := Bounded(s);
    if |s| > MAX_TASK_ANCHORS {
      assert forall i :: 0 < i < |r| ==> r[i] == s[|s| - MAX_TASK_ANCHORS + i];
    }
  }

  // ---- forgetting before or after ----

  /**
   * w is u with the older middle p dropped: both start with the first target h and end with the
   * same recent references t, of which there are at least three if anything was dropped.
   */
  ghost predicate Trimmed(u: seq<Anchor>, w: seq<Anchor>, h: Anchor, p: seq<Anchor>, t: seq<Anchor>) {
    u == [h] + p + t && w == [h] + t && (p == [] || |t| >= MAX_TASK_ANCHORS - 1)
  }

  lemma TrimmedBoundsAlike(u: seq<Anchor>, w: seq<Anchor>, h: Anchor, p: seq<Anchor>, t: seq<Anchor>)
    requires Trimmed(u, w, h, p, t)
    ensures Bounded(u) == Bounded(w)
  {
    if p == [] {
      assert u == w;
    } else {
      var n := MAX_TASK_ANCHORS - 1;
      assert u[|u| - n..] == t[|t| - n..];
      assert w[|w| - n..] == t[|t| - n..];
      if |t| == n {
        assert t[0..] == t;
      }
    }
  }

  lemma AppendRecent(h: Anchor, p: seq<Anchor>, t: seq<Anchor>, a: Anchor)
    ensures [h] + p + t + [a] == [h] + p + (t + [a]) && [h] + t + [a] == [h] + (t + [a])
  {}

  lemma RemoveMiddle(h: Anchor, p: seq<Anchor>, t: seq<Anchor>, i: nat)
    requires i < |p|
    ensures Removed([h] + p + t, i + 1) == [h] + Removed(p, i) + t
  {}

  lemma RemoveRecent(h: Anchor, p: seq<Anchor>, t: seq<Anchor>, k: nat)
    requires k < |t|
    ensures Removed([h] + p + t, 1 + |p| + k) == [h] + p + Removed(t, k)
    ensures Removed([h] + t, 1 + k) == [h] + Removed(t, k)
  {}

  lemma NewTrimmed(u: seq<Anchor>, w: seq<Anchor>, h: Anchor, p: seq<Anchor>, t: seq<Anchor>, a: Anchor)
    requires Trimmed(u, w, h, p, t) && Find(u, Key(a)) == |u|
    ensures Trimmed(Step(u, a), Step(w, a), h, p, t + [a])
  {
    hide Key, Find, Removed;
    FindMisses(u, Key(a));
    NotInTrimmed(u, w, h, p, t, Key(a));
    FindNothing(w, Key(a));
    AppendRecent(h, p, t, a);
  }

  lemma MiddleTrimmed(u: seq<Anchor>, w: seq<Anchor>, h: Anchor, p: seq<Anchor>, t: seq<Anchor>, a: Anchor, i: nat)
    requires Trimmed(u, w, h, p, t) && Distinct(u) && 1 <= i <= |p| && i == Find(u, Key(a))
    ensures Trimmed(Step(u, a), Step(w, a), h, Removed(p, i - 1), t + [a])
  {
    hide Key, Find, Removed, Distinct;
    OnlyInMiddle(u, w, h, p, t, i);
    FindNothing(w, Key(a));
    RemoveMiddle(h, p, t, i - 1);
    AppendRecent(h, Removed(p, i - 1), t, a);
  }

  lemma RecentTrimmed(u: seq<Anchor>, w: seq<Anchor>, h: Anchor, p: seq<Anchor>, t: seq<Anchor>, a: Anchor, k: nat)
    requires Trimmed(u, w, h, p, t) && Distinct(w) && k < |t| && Find(u, Key(a)) == 1 + |p| + k
    ensures Trimmed(Step(u, a), Step(w, a), h, p, Removed(t, k) + [a])
  {
    hide Key, Find, Distinct, Removed;
    assert w[1 + k] == t[k] == u[1 + |p| + k];
    FindHere(w, 1 + k, Key(a));
    RemoveRecent(h, p, t, k);
    AppendRecent(h, p, Removed(t, k), a);
    RemovedLength(t, k);
  }

  lemma FirstTrimmed(u: seq<Anchor>, w: seq<Anchor>, h: Anchor, p: seq<Anchor>, t: seq<Anchor>, a: Anchor)
    requires Trimmed(u, w, h, p, t) && Distinct(w) && Find(u, Key(a)) == 0
    ensures Step(u, a) == u && Step(w, a) == w
  {
    hide Key, Find, Distinct, Removed;
    assert w[0] == u[0];
    FindHere(w, 0, Key(a));
  }

  lemma TrimmedLength(u: seq<Anchor>, w: seq<Anchor>, h: Anchor, p: seq<Anchor>, t: seq<Anchor>)
    requires Trimmed(u, w, h, p, t)
    ensures |u| == 1 + |p| + |t|
  {}

  lemma StepTrimmed(u: seq<Anchor>, w: seq<Anchor>, h: Anchor, p: seq<Anchor>, t: seq<Anchor>, a: Anchor)
    returns (p': seq<Anchor>, t': seq<Anchor>)
    requires Trimmed(u, w, h, p, t) && Distinct(u) && Distinct(w)
    ensures Trimmed(Step(u, a), Step(w, a), h, p', t')
  {
    hide Key, Find, Distinct, Removed, Step, Trimmed;
    var i := Find(u, Key(a));
    TrimmedLength(u, w, h, p, t);
    if i == 0 {
      p', t' := p, t;
      FirstTrimmed(u, w, h, p, t, a);
    } else if i == |u| {
      p', t' := p, t + [a];
      NewTrimmed(u, w, h, p, t, a);
    } else if i <= |p| {
      p', t' := Removed(p, i - 1), t + [a];
      MiddleTrimmed(u, w, h, p, t, a, i);
    } else {
      p', t' := p, Removed(t, i - 1 - |p|) + [a];
      RecentTrimmed(u, w, h, p, t, a, i - 1 - |p|);
    }
  }

  lemma RemovedLength(s: seq<Anchor>, i: nat)
    requires i < |s|
    ensures |Removed(s, i)| == |s| - 1
  {}

  lemma FindHere(s: seq<Anchor>, i: nat, k: (Kind, string))
    requires Distinct(s) && i < |s| && Key(s[i]) == k
    ensures Find(s, k) == i
  {
    hide Key, Find, Distinct;
    FindAt(s, i);
  }

  lemma NotInTrimmed(u: seq<Anchor>, w: seq<Anchor>, h: Anchor, p: seq<Anchor>, t: seq<Anchor>, k: (Kind, string))
    requires Trimmed(u, w, h, p, t) && forall i :: 0 <= i < |u| ==> Key(u[i]) != k
    ensures forall i :: 0 <= i < |w| ==> Key(w[i]) != k
  {
    hide Key;
    forall i | 0 <= i < |w| ensures Key(w[i]) != k {
      assert w[i] == u[if i == 0 then 0 else i + |p|];
    }
  }

  lemma OnlyInMiddle(u: seq<Anchor>, w: seq<Anchor>, h: Anchor, p: seq<Anchor>, t: seq<Anchor>, i: nat)
    requires Trimmed(u, w, h, p, t) && Distinct(u) && 1 <= i <= |p|
    ensures forall j :: 0 <= j < |w| ==> Key(w[j]) != Key(u[i])
  {
    hide Key;
    forall j | 0 <= j < |w| ensures Key(w[j]) != Key(u[i]) {
      var j' := if j == 0 then 0 else j + |p|;
      assert w[j] == u[j'] && j' != i;
      assert j' < i || i < j';
    }
  }

  lemma {:induction false} FoldTrimmed(u: seq<Anchor>, w: seq<Anchor>, h: Anchor, p: seq<Anchor>, t: seq<Anchor>, b: seq<Anchor>)
    requires Trimmed(u, w, h, p, t) && Distinct(u) && Distinct(w)
    ensures Bounded(Fold(u, b)) == Bounded(Fold(w, b))
    decreases |b|
  {
    hide Trimmed, Distinct, Step, Bounded;
    if b == [] {
      TrimmedBoundsAlike(u, w, h, p, t);
    } else {
      var p', t' := StepTrimmed(u, w, h, p, t, b[0]);
      StepIsDistinct(u, b[0]);
      StepIsDistinct(w, b[0]);
      FoldTrimmed(Step(u, b[0]), Step(w, b[0]), h, p', t', b[1..]);
    }
  }

  /** Bounding early loses nothing: merging into merged references is merging everything at once. */
  lemma MergeLosesNothingToBatching(a: seq<Anchor>, b: seq<Anchor>)
    ensures Merge(Merge(a) + b) == Merge(a + b)
  {
    hide Fold, Step;
    var u := Fold([], a);
    var w := Bounded(u);
    EmptyIsDistinct();
    FoldIsDistinct([], a);
    BoundedIsDistinct(u);
    assert [] + w == w;
    FoldNew([], w);
    FoldConcat([], a, b);
    FoldConcat([], w, b);
    if |u| > MAX_TASK_ANCHORS {
      var n := |u| - (MAX_TASK_ANCHORS - 1);
      assert u == [u[0]] + u[1..n] + u[n..];
      FoldTrimmed(u, w, u[0], u[1..n], u[n..], b);
    }
  }

  lemma EmptyIsDistinct()
    ensures Distinct([])
  {}

  /** The result never repeats a reference, and merging it again changes nothing. */
  lemma MergeIsBoundedSet(a: seq<Anchor>)
    ensures |Merge(a)| <= 4 && Distinct(Merge(a)) && Merge(Merge(a)) == Merge(a)
  {
    hide Fold, Step;
    EmptyIsDistinct();
    FoldIsDistinct([], a);
    BoundedIsDistinct(Fold([], a));
    assert [] + Merge(a) == Merge(a);
    FoldNew([], Merge(a));
  }

  // ---- the loop with its index map ----

  ghost predicate Indexes(ordered: seq<Anchor>, indexes: map<(Kind, string), nat>) {
    && (forall i :: 0 <= i < |ordered| ==> Key(ordered[i]) in indexes && indexes[Key(ordered[i])] == i)
    && (forall k :: k in indexes ==> indexes[k] < |ordered| && Key(ordered[indexes[k]]) == k)
  }

  method Reindexed(ordered: seq<Anchor>) returns (indexes: map<(Kind, string), nat>)
    requires Distinct(ordered)
    ensures Indexes(ordered, indexes)
  {
    hide Key;
    indexes := map[];
    for i := 0 to |ordered|
      invariant forall j :: 0 <= j < i ==> Key(ordered[j]) in indexes && indexes[Key(ordered[j])] == j
      invariant forall k :: k in indexes ==> indexes[k] < i && Key(ordered[indexes[k]]) == k
    {
      indexes := indexes[Key(ordered[i]) := i];
    }
  }

  lemma IndexIsFind(ordered: seq<Anchor>, indexes: map<(Kind, string), nat>, k: (Kind, string))
    requires Indexes(ordered, indexes)
    ensures Find(ordered, k) == if k in indexes then indexes[k] else |ordered|
    ensures Distinct(ordered)
  {
    hide Key, Find;
    if k in indexes {
      FindAt(ordered, indexes[k]);
    } else {
      FindNothing(ordered, k);
    }
  }

  /** mergeTaskAnchors */
  method MergeTaskAnchors(groups: seq<seq<Anchor>>) returns (r: seq<Anchor>)
    ensures r == Merge(Flatten(groups)) && |r| <= 4 && Distinct(r)
  {
    hide Key, Find, Fold, Distinct;
    ghost var all := Flatten(groups);
    var ordered: seq<Anchor> := [];
    var indexes: map<(Kind, string), nat> := map[];
    NothingFolded();
    assert Indexes([], map[]);
    for g := 0 to |groups|
      invariant Indexes(ordered, indexes) && Fold([], all) == Fold(ordered, Flatten(groups[g..]))
    {
      assert groups[g..][1..] == groups[g + 1..];
      var group := groups[g];
      ghost var later := Flatten(groups[g + 1..]);
      for i := 0 to |group|
        invariant Indexes(ordered, indexes) && Fold([], all) == Fold(ordered, group[i..] + later)
      {
        var reference := group[i];
        FoldOne(ordered, group[i..], later);
        assert group[i..][1..] == group[i + 1..];
        IndexIsFind(ordered, indexes, Key(reference));
        StepIsDistinct(ordered, reference);
        if Key(reference) in indexes {
          var existing := indexes[Key(reference)];
          if existing > 0 {
            ordered := ordered[..existing] + ordered[existing + 1..] + [reference];
            indexes := Reindexed(ordered);
          }
        } else {
          AppendedIndex(ordered, indexes, reference);
          indexes := indexes[Key(reference) := |ordered|];
          ordered := ordered + [reference];
        }
      }
      assert group[|group|..] + later == later;
    }
    assert groups[|groups|..] == [];
    NothingLeft(ordered);
    MergeIsBoundedSet(all);
    return if |ordered| <= MAX_TASK_ANCHORS then ordered else [ordered[0]] + ordered[|ordered| - (MAX_TASK_ANCHORS - 1)..];
  }

  lemma NothingFolded()
    ensures Fold([], []) == []
  {}

  lemma NothingLeft(ordered: seq<Anchor>)
    ensures Fold(ordered, Flatten([])) == ordered
  {}

  lemma FoldOne(ordered: seq<Anchor>, group: seq<Anchor>, later: seq<Anchor>)
    requires group != []
    ensures Fold(ordered, group + later) == Fold(Step(ordered, group[0]), group[1..] + later)
  {
    hide Step;
    assert (group + later)[1..] == group[1..] + later;
  }

  lemma AppendedIndex(ordered: seq<Anchor>, indexes: map<(Kind, string), nat>, a: Anchor)
    requires Indexes(ordered, indexes) && Key(a) !in indexes
    ensures Indexes(ordered + [a], indexes[Key(a) := |ordered|])
  {
    hide Key;
  }
}
