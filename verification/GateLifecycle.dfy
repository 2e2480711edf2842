/**
 * The owner of one downstream stream's gates: exchanges come and go, and a cancel waits until the
 * last one has unwound before it gives back what is left.
 */
module GateLifecycle {
  import opened Common

  datatype Gate = Gate(account: string, leaseId: string)

  /** The lifecycle's own fields; `calls` lists the releases made upstream, in order. */
  datatype Lifecycle = Lifecycle(
    active: Option<Gate>,
    cancelled: bool,
    operations: nat,
    releases: set<Gate>,
    calls: seq<Gate>,
    waiting: bool,
    resolved: bool)

  const NEW_LIFECYCLE := Lifecycle(None, false, 0, {}, [], false, false)

  // ---- the methods ----

  function Begin(l: Lifecycle): Lifecycle {
    if l.cancelled then l else l.(operations := l.operations + 1)
  }

  function Attach(l: Lifecycle, g: Gate): Lifecycle {
    l.(active := Some(g))
  }

  function Release(l: Lifecycle, g: Gate): Lifecycle {
    var m := if l.active == Some(g) then l.(active := None) else l;
    if g in m.releases then m else m.(releases := m.releases + {g}, calls := m.calls + [g])
  }

  function End(l: Lifecycle): Lifecycle {
    if l.operations == 0 then l else l.(operations := l.operations - 1)
  }

  /** cancel(): only the first call starts the wait. */
  function Cancel(l: Lifecycle): Lifecycle {
    if l.waiting then l else l.(cancelled := true, waiting := true)
  }

  /** The rest of cancel(), once no operation is left. */
  function Settle(l: Lifecycle): Lifecycle {
    (if l.active.Some? then Release(l, l.active.value) else l).(resolved := true)
  }

  // ---- exchanges running against it ----

  /** An exchange between its begin and its end. */
  datatype Phase = Acquiring | Holding(gate: Gate) | Unwinding

  /** The lifecycle, its exchanges, and every gate ever attached. */
  datatype World = World(l: Lifecycle, exchanges: map<nat, Phase>, attached: set<Gate>)

  const NEW_WORLD := World(NEW_LIFECYCLE, map[], {})

  datatype Event =
    | Begins(x: nat)
    | Attaches(x: nat, gate: Gate)
    | Fails(x: nat)
    | Releases(x: nat)
    | Ends(x: nat)
    | Cancels
    | Settles

  /** Exchanges follow begin, attach or fail, release, end; a gate lease is new; cancel resumes only when idle. */
  predicate Possible(w: World, e: Event) {
    match e
    case Begins(x) => x !in w.exchanges
    case Attaches(x, gate) => x in w.exchanges && w.exchanges[x].Acquiring? && gate !in w.attached
    case Fails(x) => x in w.exchanges && w.exchanges[x].Acquiring?
    case Releases(x) => x in w.exchanges && w.exchanges[x].Holding?
    case Ends(x) => x in w.exchanges && w.exchanges[x].Unwinding?
    case Cancels => true
    case Settles => w.l.waiting && w.l.operations == 0 && !w.l.resolved
  }

  function Next(w: World, e: Event): World
    requires Possible(w, e)
  {
    match e
    case Begins(x) => if w.l.cancelled then w else w.(l := Begin(w.l), exchanges := w.exchanges[x := Acquiring])
    case Attaches(x, gate) =>
      World(Attach(w.l, gate), w.exchanges[x := Holding(gate)], w.attached + {gate})
    case Fails(x) => w.(exchanges := w.exchanges[x := Unwinding])
    case Releases(x) => w.(l := Release(w.l, w.exchanges[x].gate), exchanges := w.exchanges[x := Unwinding])
    case Ends(x) => w.(l := End(w.l), exchanges := w.exchanges - {x})
    case Cancels => w.(l := Cancel(w.l))
    case Settles => w.(l := Settle(w.l))
  }

  ghost predicate IsRun(trace: seq<World>, events: seq<Event>) {
    && |trace| == |events| + 1
    && forall i :: 0 <= i < |events| ==> Possible(trace[i], events[i]) && trace[i + 1] == Next(trace[i], events[i])
  }

  // ---- the invariant ----

  predicate HeldBy(w: World, g: Gate, x: nat) {
    x in w.exchanges && w.exchanges[x] == Holding(g)
  }

  ghost predicate NoneTwice(s: seq<Gate>) {
    forall i, j :: 0 <= i < j < |s| ==> s[i] != s[j]
  }

  /** A gate was released, or an exchange holds it and will release it. */
  ghost predicate Covered(w: World, g: Gate) {
    g in w.l.releases || exists x :: HeldBy(w, g, x)
  }

  ghost predicate CountsAgree(w: World) {
    && w.l.operations == |w.exchanges|
    && w.l.cancelled == w.l.waiting
    && (w.l.resolved ==> w.l.waiting && w.l.operations == 0)
  }

  ghost predicate GatesCovered(w: World) {
    && (forall g :: g in w.attached ==> Covered(w, g))
    && (forall x :: x in w.exchanges && w.exchanges[x].Holding? ==> w.exchanges[x].gate in w.attached)
    && (forall g :: g in w.l.releases ==> g in w.attached)
    && (w.l.active.Some? ==> w.l.active.value in w.attached)
  }

  ghost predicate CallsAgree(l: Lifecycle) {
    NoneTwice(l.calls) && forall g :: g in l.calls <==> g in l.releases
  }

  ghost predicate Inv(w: World) {
    CountsAgree(w) && GatesCovered(w) && CallsAgree(w.l)
  }

  lemma SizeOfInsert(m: map<nat, Phase>, x: nat, p: Phase)
    ensures |m[x := p]| == if x in m then |m| else |m| + 1
    ensures x in m ==> |m - {x}| == |m| - 1
  {
    assert m[x := p].Keys == m.Keys + {x};
    assert x in m ==> (m - {x}).Keys == m.Keys - {x};
    assert |m[x := p].Keys| == |m[x := p]| && |m.Keys| == |m| && |(m - {x}).Keys| == |m - {x}|;
  }

  lemma StepKeepsCalls(w: World, e: Event)
    requires CallsAgree(w.l) && Possible(w, e)
    ensures CallsAgree(Next(w, e).l)
  {}

  lemma ReleaseFrame(l: Lifecycle, g: Gate)
    ensures Release(l, g) == l.(active := Release(l, g).active, releases := Release(l, g).releases, calls := Release(l, g).calls)
  {}

  lemma ExchangesSize(w: World, e: Event)
    requires Possible(w, e)
    ensures var n, m := |w.exchanges|, |Next(w, e).exchanges|;
            m == if e.Begins? && !w.l.cancelled then n + 1 else if e.Ends? then n - 1 else n
  {
    hide Begin, Attach, Release, End, Cancel, Settle;
    if e.Begins? {
      SizeOfInsert(w.exchanges, e.x, Acquiring);
    } else if e.Attaches? {
      SizeOfInsert(w.exchanges, e.x, Holding(e.gate));
    } else if e.Fails? || e.Releases? || e.Ends? {
      SizeOfInsert(w.exchanges, e.x, Unwinding);
    }
  }

  lemma StepKeepsCounts(w: World, e: Event)
    requires CountsAgree(w) && Possible(w, e)
    ensures CountsAgree(Next(w, e))
  {
    hide Release;
    ExchangesSize(w, e);
    if e.Releases? { ReleaseFrame(w.l, w.exchanges[e.x].gate); }
    if e.Settles? && w.l.active.Some? { ReleaseFrame(w.l, w.l.active.value); }
  }

  lemma StepKeepsCovered(w: World, e: Event, g: Gate)
    requires GatesCovered(w) && Possible(w, e) && g in Next(w, e).attached
    ensures Covered(Next(w, e), g)
  {
    var v := Next(w, e);
    if e.Attaches? && g == e.gate {
      assert HeldBy(v, g, e.x);
    } else {
      assert Covered(w, g);
      if g !in w.l.releases {
        var y :| HeldBy(w, g, y);
        if e.Releases? && e.x == y {
          assert g in v.l.releases;
        } else {
          assert HeldBy(v, g, y);
        }
      }
    }
  }

  lemma StepKeepsInv(w: World, e: Event)
    requires Inv(w) && Possible(w, e)
    ensures Inv(Next(w, e))
  {
    hide Covered, CallsAgree, CountsAgree;
    StepKeepsCalls(w, e);
    StepKeepsCounts(w, e);
    forall g | g in Next(w, e).attached ensures Covered(Next(w, e), g) {
      StepKeepsCovered(w, e, g);
    }
  }

  lemma NewWorldInv()
    ensures Inv(NEW_WORLD)
  {}

  lemma {:induction false} InvAlways(trace: seq<World>, events: seq<Event>, n: nat)
    requires IsRun(trace, events) && trace[0] == NEW_WORLD && n < |trace|
    ensures Inv(trace[n])
  {
    hide Inv, Next;
    if n == 0 {
      NewWorldInv();
    } else {
      InvAlways(trace, events, n - 1);
      assert trace[n - 1 + 1] == Next(trace[n - 1], events[n - 1]);
      StepKeepsInv(trace[n - 1], events[n - 1]);
    }
  }

  lemma EmptyMap(m: map<nat, Phase>)
    requires |m| == 0
    ensures forall x :: x !in m
  {
    assert |m.Keys| == 0;
  }

  /** When a cancel has resolved, no exchange is under way and every attached gate has been given back. */
  lemma ResolvedMeansIdle(trace: seq<World>, events: seq<Event>, n: nat)
    requires IsRun(trace, events) && trace[0] == NEW_WORLD && n < |trace| && trace[n].l.resolved
    ensures trace[n].exchanges == map[] && forall g :: g in trace[n].attached ==> g in trace[n].l.calls
  {
    hide Next, NoneTwice;
    InvAlways(trace, events, n);
    var w := trace[n];
    EmptyMap(w.exchanges);
    forall g | g in w.attached ensures g in w.l.calls {
      assert Covered(w, g);
    }
  }

  /** No gate is released upstream twice. */
  lemma EachReleasedOnce(trace: seq<World>, events: seq<Event>, n: nat)
    requires IsRun(trace, events) && trace[0] == NEW_WORLD && n < |trace|
    ensures forall i, j :: 0 <= i < j < |trace[n].l.calls| ==> trace[n].l.calls[i] != trace[n].l.calls[j]
  {
    InvAlways(trace, events, n);
  }

  /** Once cancelled, the exchanges under way only become fewer. */
  lemma {:induction false} NoneBeginsAfterCancel(trace: seq<World>, events: seq<Event>, i: nat, j: nat)
    requires IsRun(trace, events) && i <= j < |trace| && trace[i].l.cancelled
    ensures trace[j].l.cancelled && trace[j].exchanges.Keys <= trace[i].exchanges.Keys
    decreases j
  {
    if i < j {
      NoneBeginsAfterCancel(trace, events, i, j - 1);
      assert trace[j - 1 + 1] == Next(trace[j - 1], events[j - 1]);
    }
  }

  /** As soon as the last exchange of a cancelled stream has ended, the cancel can resolve. */
  lemma CancelIsNeverStuck(trace: seq<World>, events: seq<Event>, n: nat)
    requires IsRun(trace, events) && trace[0] == NEW_WORLD && n < |trace| && trace[n].l.cancelled && trace[n].exchanges == map[]
    ensures trace[n].l.resolved || Possible(trace[n], Settles)
  {
    InvAlways(trace, events, n);
  }

  // ---- the object ----

  class UpstreamGateLifecycle {
    var active: Option<Gate>
    var cancelled: bool
    var operations: nat
    var releases: set<Gate>
    var calls: seq<Gate>
    var cancelPromise: bool
    var cancelResolved: bool

    ghost function State(): Lifecycle
      reads this
    {
      Lifecycle(active, cancelled, operations, releases, calls, cancelPromise, cancelResolved)
    }

    constructor ()
      ensures State() == NEW_LIFECYCLE
    {
      active, cancelled, operations, releases, calls, cancelPromise, cancelResolved := None, false, 0, {}, [], false, false;
    }

    method BeginExchange() returns (ok: bool)
      modifies this
      ensures State() == Begin(old(State())) && ok == !cancelled
    {
      if cancelled {
        return false;
      }
      operations := operations + 1;
      return true;
    }

    method AttachGate(gate: Gate) returns (ok: bool)
      modifies this
      ensures State() == Attach(old(State()), gate) && ok == !cancelled
    {
      active := Some(gate);
      return !cancelled;
    }

    method ReleaseGate(gate: Gate)
      modifies this
      ensures State() == Release(old(State()), gate)
      ensures gate in releases && active != Some(gate)
    {
      if active == Some(gate) {
        active := None;
      }
      if gate in releases {
        return;
      }
      calls := calls + [gate];
      releases := releases + {gate};
    }

    method EndExchange()
      modifies this
      ensures State() == End(old(State()))
    {
      if operations > 0 {
        operations := operations - 1;
      }
    }

    method StartCancel()
      modifies this
      ensures State() == Cancel(old(State()))
    {
      if !cancelPromise {
        cancelled := true;
        cancelPromise := true;
      }
    }

    /** What runs after `await idle()`. */
    method FinishCancel()
      requires cancelPromise && operations == 0
      modifies this
      ensures State() == Settle(old(State())) && active.None?
    {
      if active.Some? {
        ReleaseGate(active.value);
      }
      cancelResolved := true;
    }
  }
}
