/**
 * One logical exchange: at most one reconnect inside an account, at most one failover to a second
 * account, under a rule that forbids sending the prompt again once it was submitted.
 *
 * Everything outside (sockets, remote objects, clocks) is a script of answers.  An error is its
 * message class together with what it says about submission.
 */
module Exchange {
  import opened Common

  /** The classes of error message that the retry rules distinguish. */
  datatype Message = RequestAborted | DeadlineExceeded | QuotaExhausted | ConnectionFault | AccountFault | OtherFault

  /** classifyAccountFailure returns a disposition (which always allows failover). */
  predicate Classified(m: Message) {
    m.DeadlineExceeded? || m.QuotaExhausted? || m.ConnectionFault? || m.AccountFault?
  }

  /** Structured causes are ChatHubAttemptError; only they can report a submission. */
  datatype Cause = Plain(message: Message) | Attempt(message: Message, submitted: bool, terminalEmptyQuota: bool)

  predicate MayReconnect(m: Message, submitted: bool) {
    !submitted && m.ConnectionFault?
  }

  predicate MayFailOverFailure(c: Cause) {
    if c.message.RequestAborted? || c.message.DeadlineExceeded? then false
    else if c.Attempt? && c.terminalEmptyQuota then true
    else c.Plain? || !c.submitted
  }

  predicate ReportsSubmission(c: Cause) {
    c.Attempt? && c.submitted
  }

  predicate MayFailOverExchange(classified: bool, started: bool, locked: bool, visible: bool, submitted: bool, expired: bool) {
    classified && !started && !locked && !visible && !submitted && !expired
  }

  // ---- chatHub ----

  /** One connection: how it ended, and what the clock, the signal and the client saw by then. */
  datatype Link = Link(fault: Option<Message>, submitted: bool, emitted: bool, expired: bool, aborted: bool)

  /** The error that runChatHub throws for a failed connection. */
  function LinkCause(l: Link): Cause
    requires l.fault.Some?
  {
    if l.expired then Attempt(DeadlineExceeded, l.submitted, false)
    else if l.aborted then Attempt(RequestAborted, l.submitted, false)
    else Attempt(l.fault.value, l.submitted, l.fault.value.QuotaExhausted?)
  }

  predicate Reconnects(l: Link) {
    l.fault.Some? && !l.expired && !l.aborted && !l.emitted && MayReconnect(LinkCause(l).message, l.submitted)
  }

  /** A connection that completes has submitted its prompt. */
  function Sent(l: Link): bool {
    l.submitted || l.fault.None?
  }

  datatype Hub = Hub(connections: nat, submissions: nat, fault: Option<Cause>)

  function LinkFault(l: Link): Option<Cause> {
    if l.fault.None? then None else Some(LinkCause(l))
  }

  function ChatHub(links: (Link, Link)): Hub {
    var first := if Sent(links.0) then 1 else 0;
    if !Reconnects(links.0) then Hub(1, first, LinkFault(links.0))
    else Hub(2, first + if Sent(links.1) then 1 else 0, LinkFault(links.1))
  }

  /** The retry loop. */
  method RunChatHub(links: (Link, Link)) returns (hub: Hub)
    ensures hub == ChatHub(links)
    ensures 1 <= hub.connections <= 2 && hub.submissions <= 1
    ensures hub.fault.None? ==> hub.submissions == 1
    ensures hub.fault.Some? ==> hub.fault.value.Attempt? && (hub.submissions == 1 <==> hub.fault.value.submitted)
  {
    hub := Hub(0, 0, None);
    var attempt := 0;
    while attempt < 2
      invariant attempt <= 2 && hub.connections == attempt && hub.submissions == 0
      invariant attempt == 0 || (attempt == 1 && Reconnects(links.0))
    {
      var link := if attempt == 0 then links.0 else links.1;
      hub := Hub(hub.connections + 1, hub.submissions + if Sent(link) then 1 else 0, LinkFault(link));
      if attempt == 1 || !Reconnects(link) {
        return;
      }
      attempt := attempt + 1;
    }
  }

  /** One chatHub connects at most twice and submits at most once, which its error reports. */
  lemma HubSubmitsOnce(links: (Link, Link))
    ensures var hub := ChatHub(links);
            1 <= hub.connections <= 2 && hub.submissions <= 1
            && (hub.fault.Some? ==> hub.fault.value.Attempt? && (hub.submissions == 1 <==> hub.fault.value.submitted))
  {}

  // ---- one pass over an account ----

  datatype Act = Took(account: string) | Freed(account: string) | Dialed(account: string) | Submitted(account: string)

  datatype Lease = Lease(account: string, started: bool, locked: bool)

  /** How the call of the remote runner itself may fail, and whether the prompt was sent by then. */
  datatype Lost = Lost(message: Message, submitted: bool)

  /** The script of one pass. */
  datatype Turn = Turn(
    begins: bool,
    gateFault: Option<Message>,
    attaches: bool,
    abortedBefore: bool,
    lost: Option<Lost>,
    links: (Link, Link),
    abortedAfter: bool,
    emits: bool,
    lockFault: Option<Message>,
    bookkeepingFault: Option<Message>,
    expired: bool,
    selection: Option<string>,
    selectionFails: bool,
    switchFails: bool)

  datatype Pass = Pass(acts: seq<Act>, fault: Option<Cause>, visible: bool)

  function Repeat(a: Act, n: nat): (r: seq<Act>)
    ensures |r| == n
  {
    if n == 0 then [] else Repeat(a, n - 1) + [a]
  }

  /** durableChatHub */
  function Call(t: Turn, account: string): Pass {
    if t.abortedBefore then Pass([], Some(Attempt(RequestAborted, false, false)), false)
    else if t.lost.Some? then
      Pass([Dialed(account)] + (if t.lost.value.submitted then [Submitted(account)] else []), Some(Plain(t.lost.value.message)), false)
    else
      var hub := ChatHub(t.links);
      Pass(Repeat(Dialed(account), hub.connections) + Repeat(Submitted(account), hub.submissions),
           if hub.fault.Some? then hub.fault else if t.abortedAfter then Some(Attempt(RequestAborted, true, false)) else None, false)
  }

  /** What follows a result: the account lock before the first visible text, then the health report. */
  function AfterCall(t: Turn, lease: Lease, p: Pass): Pass {
    if p.fault.Some? then p.(visible := lease.locked)
    else if t.emits && !lease.locked && t.lockFault.Some? then p.(fault := Some(Plain(t.lockFault.value)), visible := false)
    else p.(fault := if t.bookkeepingFault.Some? then Some(Plain(t.bookkeepingFault.value)) else None, visible := lease.locked || t.emits)
  }

  /** The try block and its finally. */
  function RunPass(t: Turn, lease: Lease): Pass {
    if !t.begins then Pass([], Some(Plain(RequestAborted)), lease.locked)
    else if t.gateFault.Some? then Pass([], Some(Plain(t.gateFault.value)), lease.locked)
    else
      var inner := if !t.attaches then Pass([], Some(Plain(RequestAborted)), lease.locked) else AfterCall(t, lease, Call(t, lease.account));
      inner.(acts := [Took(lease.account)] + inner.acts + [Freed(lease.account)])
  }

  // ---- the failover loop ----

  datatype Ending = Returned | Released | Abandoned | SwitchRefused

  datatype Result = Result(acts: seq<Act>, ending: Ending)

  /** The account to go on with; None when the exchange ends here. */
  function Successor(t: Turn, lease: Lease, p: Pass, attempted: set<string>): Option<string> {
    if p.fault.None? || |attempted| >= 2 then None
    else
      var c := p.fault.value;
      if !MayFailOverExchange(Classified(c.message), lease.started, lease.locked, p.visible, !MayFailOverFailure(c), t.expired) then None
      else if t.selectionFails || t.selection.None? || t.selection.value in attempted then None
      else t.selection
  }

  function Ends(t: Turn, lease: Lease, p: Pass, attempted: set<string>): Ending {
    if p.fault.None? then Returned
    else if ReportsSubmission(p.fault.value) && !(MayTry(t, lease, p, attempted) && t.selectionFails) then Abandoned
    else Released
  }

  predicate MayTry(t: Turn, lease: Lease, p: Pass, attempted: set<string>) {
    && p.fault.Some? && |attempted| < 2
    && MayFailOverExchange(Classified(p.fault.value.message), lease.started, lease.locked, p.visible, !MayFailOverFailure(p.fault.value), t.expired)
  }

  /** exchange, from its pass number n on. */
  function Run(script: nat -> Turn, n: nat, lease: Lease, attempted: set<string>): Result
    decreases 2 - |attempted|
  {
    var t := script(n);
    var p := RunPass(t, lease);
    var next := Successor(t, lease, p, attempted);
    if next.None? then Result(p.acts, Ends(t, lease, p, attempted))
    else if t.switchFails then Result(p.acts, SwitchRefused)
    else
      var rest := Run(script, n + 1, Lease(next.value, false, false), attempted + {next.value});
      Result(p.acts + rest.acts, rest.ending)
  }

  function Exchange(script: nat -> Turn, lease: Lease): Result {
    Run(script, 0, lease, {lease.account})
  }

  method RunExchange(script: nat -> Turn, lease0: Lease) returns (r: Result)
    ensures r == Exchange(script, lease0)
  {
    hide RunPass, Successor, Ends;
    var lease, attempted, acts, n := lease0, {lease0.account}, [], 0;
    while true
      invariant |attempted| >= 1
      invariant var rest := Run(script, n, lease, attempted);
                Exchange(script, lease0) == Result(acts + rest.acts, rest.ending)
      decreases 2 - |attempted|
    {
      var t := script(n);
      var p := RunPass(t, lease);
      acts := acts + p.acts;
      var next := Successor(t, lease, p, attempted);
      if next.None? {
        return Result(acts, Ends(t, lease, p, attempted));
      }
      if t.switchFails {
        return Result(acts, SwitchRefused);
      }
      SuccessorIsNew(t, lease, p, attempted);
      lease, attempted, n := Lease(next.value, false, false), attempted + {next.value}, n + 1;
    }
  }

  lemma SuccessorIsNew(t: Turn, lease: Lease, p: Pass, attempted: set<string>)
    ensures var next := Successor(t, lease, p, attempted);
            next.Some? ==> |attempted| < 2 && next.value !in attempted && !lease.started && !lease.locked
  {}

  // ---- what any exchange does ----

  function Dials(acts: seq<Act>): nat {
    if acts == [] then 0 else (if acts[0].Dialed? then 1 else 0) + Dials(acts[1..])
  }

  function Submissions(acts: seq<Act>): nat {
    if acts == [] then 0 else (if acts[0].Submitted? then 1 else 0) + Submissions(acts[1..])
  }

  function Accounts(acts: seq<Act>): set<string> {
    set a | a in acts :: a.account
  }

  /** Gates are taken one at a time and each is given back before the next is taken. */
  predicate GatesInTurn(acts: seq<Act>, held: Option<string>)
    decreases acts
  {
    if acts == [] then held.None?
    else
      match acts[0]
      case Took(a) => held.None? && GatesInTurn(acts[1..], Some(a))
      case Freed(a) => held == Some(a) && GatesInTurn(acts[1..], None)
      case Dialed(a) => held == Some(a) && GatesInTurn(acts[1..], held)
      case Submitted(a) => held == Some(a) && GatesInTurn(acts[1..], held)
  }

  lemma {:induction false} DialsConcat(a: seq<Act>, b: seq<Act>)
    ensures Dials(a + b) == Dials(a) + Dials(b) && Submissions(a + b) == Submissions(a) + Submissions(b)
  {
    if a == [] {
      assert a + b == b;
    } else {
      assert (a + b)[1..] == a[1..] + b;
      DialsConcat(a[1..], b);
    }
  }

  lemma {:induction false} GatesConcat(a: seq<Act>, b: seq<Act>, held: Option<string>)
    requires GatesInTurn(a, held) && GatesInTurn(b, None)
    ensures GatesInTurn(a + b, held)
    decreases |a|
  {
    if a == [] {
      assert a + b == b;
    } else {
      assert (a + b)[1..] == a[1..] + b;
      match a[0]
      case Took(x) => GatesConcat(a[1..], b, Some(x));
      case Freed(x) => GatesConcat(a[1..], b, None);
      case Dialed(x) => GatesConcat(a[1..], b, held);
      case Submitted(x) => GatesConcat(a[1..], b, held);
    }
  }

  /** Dials and submissions of one account, under its gate. */
  predicate Inside(acts: seq<Act>, account: string) {
    forall i :: 0 <= i < |acts| ==> acts[i] == Dialed(account) || acts[i] == Submitted(account)
  }

  lemma {:induction false} InsideGate(acts: seq<Act>, account: string)
    requires Inside(acts, account)
    ensures GatesInTurn(acts + [Freed(account)], Some(account))
  {
    var all := acts + [Freed(account)];
    if acts == [] {
      assert all == [Freed(account)];
      assert all[1..] == [];
    } else {
      InsideGate(acts[1..], account);
      assert all[1..] == acts[1..] + [Freed(account)];
    }
  }

  lemma {:induction false} RepeatFacts(a: Act, n: nat)
    ensures forall i :: 0 <= i < n ==> Repeat(a, n)[i] == a
    ensures Dials(Repeat(a, n)) == (if a.Dialed? then n else 0) && Submissions(Repeat(a, n)) == (if a.Submitted? then n else 0)
  {
    if n > 0 {
      RepeatFacts(a, n - 1);
      DialsConcat(Repeat(a, n - 1), [a]);
      assert [a][1..] == [];
    }
  }

  lemma OneAct(a: Act)
    ensures Dials([a]) == (if a.Dialed? then 1 else 0) && Submissions([a]) == (if a.Submitted? then 1 else 0)
    ensures Dials([]) == 0 && Submissions([]) == 0
  {
    assert [a][1..] == [];
  }

  /** Whether the pass ended in an error that hides a submission it made. */
  predicate Unreported(p: Pass) {
    Submissions(p.acts) > 0 && p.fault.Some? && !ReportsSubmission(p.fault.value)
  }

  lemma CallFacts(t: Turn, account: string)
    ensures var p := Call(t, account);
            && Inside(p.acts, account) && Dials(p.acts) <= 2 && Submissions(p.acts) <= 1
            && (p.fault.Some? && p.fault.value.Attempt? ==> (Submissions(p.acts) == 1 <==> p.fault.value.submitted))
            && (p.fault.None? ==> Submissions(p.acts) == 1)
  {
    if t.abortedBefore {
      OneAct(Dialed(account));
    } else if t.lost.Some? {
      OneAct(Dialed(account));
      OneAct(Submitted(account));
      DialsConcat([Dialed(account)], if t.lost.value.submitted then [Submitted(account)] else []);
    } else {
      var hub := ChatHub(t.links);
      HubSubmitsOnce(t.links);
      RepeatFacts(Dialed(account), hub.connections);
      RepeatFacts(Submitted(account), hub.submissions);
      DialsConcat(Repeat(Dialed(account), hub.connections), Repeat(Submitted(account), hub.submissions));
    }
  }

  /** One pass: one account, at most two connections, at most one submission, its gate given back. */
  lemma PassFacts(t: Turn, lease: Lease)
    ensures var p := RunPass(t, lease);
            && GatesInTurn(p.acts, None) && Dials(p.acts) <= 2 && Submissions(p.acts) <= 1
            && Accounts(p.acts) <= {lease.account}
            && (p.fault.Some? && p.fault.value.Attempt? ==> (Submissions(p.acts) == 1 <==> p.fault.value.submitted))
  {
    hide Call, Dials, Submissions, GatesInTurn;
    var a := lease.account;
    CallFacts(t, a);
    OneAct(Took(a));
    OneAct(Freed(a));
    NoActs();
    if t.begins && t.gateFault.None? {
      var inner := if t.attaches then Call(t, a).acts else [];
      InsideGate(inner, a);
      DialsConcat([Took(a)] + inner, [Freed(a)]);
      DialsConcat([Took(a)], inner);
      GateOpens(a, inner + [Freed(a)]);
      assert [Took(a)] + inner + [Freed(a)] == [Took(a)] + (inner + [Freed(a)]);
    }
  }

  lemma NoActs()
    ensures GatesInTurn([], None)
  {}

  lemma GateOpens(a: string, acts: seq<Act>)
    requires GatesInTurn(acts, Some(a))
    ensures GatesInTurn([Took(a)] + acts, None)
  {
    assert ([Took(a)] + acts)[1..] == acts;
  }

  /** The facts of a whole run that started with the attempted accounts. */
  lemma {:induction false} RunFacts(script: nat -> Turn, n: nat, lease: Lease, attempted: set<string>)
    requires attempted == {lease.account} || |attempted| == 2
    requires lease.account in attempted
    ensures var r := Run(script, n, lease, attempted);
            GatesInTurn(r.acts, None)
            && Dials(r.acts) <= 2 * (3 - |attempted|) && Submissions(r.acts) <= 3 - |attempted|
    decreases 2 - |attempted|
  {
    hide RunPass, Dials, Submissions, GatesInTurn, Ends;
    var t := script(n);
    var p := RunPass(t, lease);
    var next := Successor(t, lease, p, attempted);
    PassFacts(t, lease);
    if next.Some? && !t.switchFails {
      var rest := Run(script, n + 1, Lease(next.value, false, false), attempted + {next.value});
      RunFacts(script, n + 1, Lease(next.value, false, false), attempted + {next.value});
      DialsConcat(p.acts, rest.acts);
      GatesConcat(p.acts, rest.acts, None);
    }
  }

  /** At most two accounts, four connections and two submissions; every gate given back before the next is taken. */
  lemma ExchangeIsBounded(script: nat -> Turn, lease: Lease)
    ensures var r := Exchange(script, lease);
            Dials(r.acts) <= 4 && Submissions(r.acts) <= 2 && GatesInTurn(r.acts, None) && |Accounts(r.acts)| <= 2
  {
    hide Run, Dials, Submissions, GatesInTurn;
    RunFacts(script, 0, lease, {lease.account});
    AtMostTwoAccounts(script, lease);
  }

  lemma SecondRunIsLast(script: nat -> Turn, n: nat, lease: Lease, attempted: set<string>)
    requires |attempted| >= 2
    ensures Run(script, n, lease, attempted).acts == RunPass(script(n), lease).acts
  {
    hide RunPass;
  }

  /** The passes of an exchange: one, or two on different accounts. */
  lemma TwoPasses(script: nat -> Turn, lease: Lease)
    ensures var p := RunPass(script(0), lease);
            var next := Successor(script(0), lease, p, {lease.account});
            Exchange(script, lease).acts ==
              if next.None? || script(0).switchFails then p.acts
              else p.acts + RunPass(script(1), Lease(next.value, false, false)).acts
    ensures Successor(script(0), lease, RunPass(script(0), lease), {lease.account}) != Some(lease.account)
  {
    hide RunPass, Ends;
    var p := RunPass(script(0), lease);
    var next := Successor(script(0), lease, p, {lease.account});
    if next.Some? && !script(0).switchFails {
      SecondRunIsLast(script, 1, Lease(next.value, false, false), {lease.account, next.value});
      assert {lease.account} + {next.value} == {lease.account, next.value};
    }
  }

  lemma AtMostTwoAccounts(script: nat -> Turn, lease: Lease)
    ensures |Accounts(Exchange(script, lease).acts)| <= 2
  {
    hide RunPass, Exchange, Successor;
    TwoPasses(script, lease);
    var p := RunPass(script(0), lease);
    var next := Successor(script(0), lease, p, {lease.account});
    PassFacts(script(0), lease);
    if next.Some? && !script(0).switchFails {
      var q := RunPass(script(1), Lease(next.value, false, false));
      PassFacts(script(1), Lease(next.value, false, false));
      assert Accounts(p.acts + q.acts) <= Accounts(p.acts) + Accounts(q.acts);
      SubsetSize(Accounts(p.acts + q.acts), {lease.account, next.value});
    } else {
      SubsetSize(Accounts(p.acts), {lease.account});
    }
  }

  lemma {:induction false} SubsetSize(a: set<string>, b: set<string>)
    requires a <= b
    ensures |a| <= |b|
  {
    if a != {} {
      var x :| x in a;
      SubsetSize(a - {x}, b - {x});
    }
  }

  // ---- when the prompt is submitted twice ----

  /** Whether a pass gets as far as its remote call. */
  predicate Calls(t: Turn) {
    t.begins && t.gateFault.None? && t.attaches && !t.abortedBefore
  }

  /** The connection that decides how the call ends. */
  function LastLink(links: (Link, Link)): Link {
    if Reconnects(links.0) then links.1 else links.0
  }

  /** Whether the prompt is sent on a pass, whatever comes back. */
  predicate Sends(t: Turn) {
    Calls(t) && if t.lost.Some? then t.lost.value.submitted else Sent(LastLink(t.links))
  }

  /** Whether the lease and the outside allow another account after a pass that failed. */
  predicate MovesOn(t: Turn, lease: Lease) {
    && !lease.started && !lease.locked && !t.expired
    && !t.selectionFails && t.selection.Some? && t.selection.value != lease.account && !t.switchFails
  }

  /** The messages that classify as account failures, the expired deadline apart. */
  predicate ReadsAsAccountFailure(m: Message) {
    m.QuotaExhausted? || m.ConnectionFault? || m.AccountFault?
  }

  /** The answer arrived, empty and with exhausted quota. */
  predicate EndsInEmptyQuota(t: Turn) {
    var last := LastLink(t.links);
    t.lost.None? && last.fault == Some(QuotaExhausted) && !last.expired && !last.aborted
  }

  /**
   * The prompt went out and the error that ends the pass does not say so: the remote call was lost, or
   * the account lock or, with nothing shown yet, the health report failed after the result.
   */
  predicate EndsInUnstructuredFailure(t: Turn) {
    if t.lost.Some? then ReadsAsAccountFailure(t.lost.value.message)
    else
      && LastLink(t.links).fault.None? && !t.abortedAfter
      && var late := if t.emits then t.lockFault else t.bookkeepingFault; late.Some? && ReadsAsAccountFailure(late.value)
  }

  lemma PassSubmits(t: Turn, lease: Lease)
    ensures Submissions(RunPass(t, lease).acts) == if Sends(t) then 1 else 0
  {
    hide Dials, Submissions, Reconnects;
    var a := lease.account;
    NoSubmissions(a);
    if t.begins && t.gateFault.None? {
      CallSubmits(t, a);
      var inner := if t.attaches then Call(t, a).acts else [];
      DialsConcat([Took(a)] + inner, [Freed(a)]);
      DialsConcat([Took(a)], inner);
    }
  }

  lemma CallSubmits(t: Turn, a: string)
    ensures Submissions(Call(t, a).acts) ==
            if !t.abortedBefore && (if t.lost.Some? then t.lost.value.submitted else Sent(LastLink(t.links))) then 1 else 0
  {
    hide Dials, Submissions;
    NoSubmissions(a);
    if t.abortedBefore {
    } else if t.lost.Some? {
      DialsConcat([Dialed(a)], if t.lost.value.submitted then [Submitted(a)] else []);
    } else {
      var hub := ChatHub(t.links);
      RepeatFacts(Dialed(a), hub.connections);
      RepeatFacts(Submitted(a), hub.submissions);
      DialsConcat(Repeat(Dialed(a), hub.connections), Repeat(Submitted(a), hub.submissions));
    }
  }

  /** After a pass that sent the prompt, the exchange goes on to another account in exactly two cases. */
  lemma SentAndMovesOn(t: Turn, lease: Lease)
    requires Sends(t)
    ensures Successor(t, lease, RunPass(t, lease), {lease.account}).Some? && !t.switchFails <==>
            MovesOn(t, lease) && (EndsInEmptyQuota(t) || EndsInUnstructuredFailure(t))
  {
    hide Repeat;
  }

  /**
   * The prompt is submitted twice exactly when both passes send it, the lease is neither started nor
   * locked, another account is found before the deadline, and the first pass ended in terminal empty
   * quota or in an unstructured failure that reads like one of the account.
   */
  lemma SubmittedTwiceExactly(script: nat -> Turn, lease: Lease)
    ensures Submissions(Exchange(script, lease).acts) == 2 <==>
            && Sends(script(0)) && Sends(script(1)) && MovesOn(script(0), lease)
            && (EndsInEmptyQuota(script(0)) || EndsInUnstructuredFailure(script(0)))
  {
    hide RunPass, Exchange, Successor, Sends, MovesOn, EndsInEmptyQuota, EndsInUnstructuredFailure, Submissions;
    var p := RunPass(script(0), lease);
    var next := Successor(script(0), lease, p, {lease.account});
    TwoPasses(script, lease);
    PassSubmits(script(0), lease);
    if Sends(script(0)) {
      SentAndMovesOn(script(0), lease);
    }
    if next.Some? && !script(0).switchFails {
      var other := Lease(next.value, false, false);
      PassSubmits(script(1), other);
      DialsConcat(p.acts, RunPass(script(1), other).acts);
    }
  }

  /** So the rule against a second submission, empty quota apart, holds exactly without such a failure. */
  lemma AtMostOnceExactly(script: nat -> Turn, lease: Lease)
    ensures (Submissions(Exchange(script, lease).acts) <= 1 || EndsInEmptyQuota(script(0))) <==>
            !(Sends(script(0)) && Sends(script(1)) && MovesOn(script(0), lease) && EndsInUnstructuredFailure(script(0)))
  {
    hide Exchange, Sends, MovesOn, Submissions;
    SubmittedTwiceExactly(script, lease);
    ExchangeIsBounded(script, lease);
  }

  /** A started or locked lease never fails over: the exchange stays with its account. */
  lemma StartedOrLockedStays(script: nat -> Turn, lease: Lease)
    requires lease.started || lease.locked
    ensures Accounts(Exchange(script, lease).acts) <= {lease.account} && Submissions(Exchange(script, lease).acts) <= 1
  {
    hide RunPass, Exchange;
    TwoPasses(script, lease);
    PassFacts(script(0), lease);
  }

  /**
   * Which errors hide a submission: exactly those raised after the result by the lock or the health
   * report, or by the loss of the remote call after the prompt was sent.
   */
  lemma HiddenSubmissions(t: Turn, lease: Lease)
    ensures Unreported(RunPass(t, lease)) <==>
              && t.begins && t.gateFault.None? && t.attaches && !t.abortedBefore
              && if t.lost.Some? then t.lost.value.submitted
                 else ChatHub(t.links).fault.None? && !t.abortedAfter
                      && (t.bookkeepingFault.Some? || (t.emits && !lease.locked && t.lockFault.Some?))
  {
    hide Dials, Submissions, ChatHub;
    var a := lease.account;
    CallFacts(t, a);
    HubSubmitsOnce(t.links);
    NoSubmissions(a);
    if t.begins && t.gateFault.None? {
      var inner := if t.attaches then Call(t, a).acts else [];
      DialsConcat([Took(a)] + inner, [Freed(a)]);
      DialsConcat([Took(a)], inner);
      if t.attaches && !t.abortedBefore && t.lost.Some? {
        DialsConcat([Dialed(a)], if t.lost.value.submitted then [Submitted(a)] else []);
      }
    }
  }

  lemma NoSubmissions(a: string)
    ensures Submissions([]) == 0 && Submissions([Took(a)]) == 0 && Submissions([Freed(a)]) == 0 && Submissions([Dialed(a)]) == 0
    ensures Submissions([Submitted(a)]) == 1
  {
    OneAct(Took(a));
    OneAct(Freed(a));
    OneAct(Dialed(a));
    OneAct(Submitted(a));
  }

  // ---- a hidden submission is repeated ----

  const COMPLETES := Link(None, true, false, false, false)

  /** A result whose health report then fails with an account-like message. */
  const REPORT_FAILS := Turn(true, None, true, false, None, (COMPLETES, COMPLETES), false, false, None, Some(AccountFault),
                             false, Some("second"), false, false)

  /** Without any quota failure, the prompt reaches two accounts when the first result's health report fails. */
  lemma HiddenSubmissionIsRepeated()
    ensures var script := (n: nat) => REPORT_FAILS; var lease := Lease("first", false, false);
            Submissions(Exchange(script, lease).acts) == 2
            && !exists c :: RunPass(script(0), lease).fault == Some(c) && c.Attempt?
  {
    var script := (n: nat) => REPORT_FAILS;
    var lease := Lease("first", false, false);
    var other := Lease("second", false, false);
    TwoPasses(script, lease);
    HiddenSubmissions(REPORT_FAILS, lease);
    HiddenSubmissions(REPORT_FAILS, other);
    PassFacts(REPORT_FAILS, lease);
    PassFacts(REPORT_FAILS, other);
    DialsConcat(RunPass(REPORT_FAILS, lease).acts, RunPass(REPORT_FAILS, other).acts);
  }
}
