/**
 * chatPrompt as a whole, in terms of the messages of the history: which of them its prompt holds, and
 * in which order.
 */
module PromptMessages {
  import opened Common
  import opened TokenEstimate
  import opened PromptBounds

  predicate IsInstruction(m: Message) {
    m.kind.System? || m.kind.Developer?
  }

  function Layers(messages: seq<Message>): seq<Message> {
    if messages == [] then []
    else (if IsInstruction(messages[0]) then [messages[0]] else []) + Layers(messages[1..])
  }

  /** The messages that are no instructions. */
  function Spoken(messages: seq<Message>): seq<Message> {
    if messages == [] then []
    else (if IsInstruction(messages[0]) then [] else [messages[0]]) + Spoken(messages[1..])
  }

  function LastUserMessage(messages: seq<Message>): (r: int)
    ensures -1 <= r < |messages|
    ensures r >= 0 ==> messages[r].kind.User?
    ensures forall i :: r < i < |messages| ==> !messages[i].kind.User?
  {
    if messages == [] then -1
    else if messages[|messages| - 1].kind.User? then |messages| - 1
    else LastUserMessage(messages[..|messages| - 1])
  }

  /** The current turn: from the last user message on, or everything. */
  function CurrentStart(messages: seq<Message>): (r: nat)
    ensures r <= |messages|
  {
    Max(0, LastUserMessage(messages))
  }

  /** String.prototype.trim leaves nothing. */
  predicate Blank(t: Text) {
    forall i :: 0 <= i < |t| ==> IsPromptWhitespace(t[i]) && t[i] != 0x85
  }

  /** chatPrompt: None where it throws. */
  function ChatPrompt(messages: seq<Message>, maxCharacters: nat, maxTokens: nat, cut: Cut): Option<Text> {
    var segments := Segments(Units(messages));
    if messages == [] || !CurrentTurnFits(segments, maxCharacters, maxTokens) then None
    else
      var result := BoundPrompt(segments, maxCharacters, maxTokens, cut);
      if result.Some? && Blank(result.value) then None else result
  }

  // ---- lists of messages ----

  lemma Assoc<T>(a: seq<T>, b: seq<T>, c: seq<T>)
    ensures a + (b + c) == a + b + c
  {}

  lemma FirstMessage(m: Message, rest: seq<Message>)
    ensures Layers([m] + rest) == (if IsInstruction(m) then [m] else []) + Layers(rest)
    ensures Spoken([m] + rest) == (if IsInstruction(m) then [] else [m]) + Spoken(rest)
    ensures RenderAll([m] + rest) == [Render(m)] + RenderAll(rest)
  {
    hide Render;
    assert ([m] + rest)[1..] == rest;
  }

  lemma {:induction false} SplitConcat(a: seq<Message>, b: seq<Message>)
    ensures Layers(a + b) == Layers(a) + Layers(b) && Spoken(a + b) == Spoken(a) + Spoken(b)
    ensures RenderAll(a + b) == RenderAll(a) + RenderAll(b)
  {
    if a == [] {
      assert a + b == b;
    } else {
      hide Layers, Spoken, RenderAll, Render;
      var m, rest := a[0], a[1..];
      assert a == [m] + rest && a + b == [m] + (rest + b);
      SplitConcat(rest, b);
      FirstMessage(m, rest + b);
      FirstMessage(m, rest);
      Assoc(if IsInstruction(m) then [m] else [], Layers(rest), Layers(b));
      Assoc(if IsInstruction(m) then [] else [m], Spoken(rest), Spoken(b));
      Assoc([Render(m)], RenderAll(rest), RenderAll(b));
    }
  }

  lemma {:induction false} ToolsAreSpoken(results: seq<Message>)
    requires forall i :: 0 <= i < |results| ==> results[i].kind.Tool?
    ensures Spoken(results) == results && Layers(results) == []
  {
    if results != [] {
      ToolsAreSpoken(results[1..]);
      assert results == [results[0]] + results[1..];
    }
  }

  lemma UnitSplits(u: Unit)
    requires Causal(u)
    ensures var all := [u.head] + u.results;
            if IsInstruction(u.head) then u.results == [] && Layers(all) == [u.head] && Spoken(all) == []
            else Layers(all) == [] && Spoken(all) == all
  {
    ToolsAreSpoken(u.results);
    var all := [u.head] + u.results;
    assert all[1..] == u.results;
  }

  // ---- joined texts ----

  lemma {:induction false} JoinText(a: seq<Text>, b: seq<Text>)
    ensures Join(a + b) == Join(a) + (if a != [] && b != [] then GAP else []) + Join(b)
  {
    if a == [] {
      assert a + b == b;
    } else {
      assert (a + b)[1..] == a[1..] + b;
      JoinText(a[1..], b);
      if |a| == 1 {
        assert a[1..] + b == b;
        assert Join(a + b) == if b == [] then a[0] else a[0] + GAP + Join(b);
      } else {
        assert a[0] + GAP + (Join(a[1..]) + (if b != [] then GAP else []) + Join(b))
            == a[0] + GAP + Join(a[1..]) + (if b != [] then GAP else []) + Join(b);
      }
    }
  }

  /** A part that is itself joined can be spread out. */
  lemma JoinSpread(a: seq<Text>, part: seq<Text>, b: seq<Text>)
    requires part != []
    ensures Join(a + [Join(part)] + b) == Join(a + part + b)
  {
    hide Join;
    JoinText(a + [Join(part)], b);
    JoinText(a, [Join(part)]);
    JoinOne(Join(part));
    JoinText(a + part, b);
    JoinText(a, part);
  }

  /** The instruction layers of the units are the instruction messages, rendered. */
  lemma {:induction false} LayersOfUnits(units: seq<Unit>)
    requires forall i :: 0 <= i < |units| ==> Causal(units[i])
    ensures Instructions(Segments(units)) == RenderAll(Layers(Flatten(units)))
  {
    hide Causal, Render;
    if units != [] {
      var u := units[0];
      var all := [u.head] + u.results;
      LayersOfUnits(units[1..]);
      UnitSplits(u);
      SplitConcat(all, Flatten(units[1..]));
      SplitConcat(Layers(all), Layers(Flatten(units[1..])));
      if IsInstruction(u.head) {
        assert RenderAll([u.head]) == [Render(u.head)] by { RenderOne(u.head); }
        assert SegmentOf(u).value == Render(u.head) by { RenderOne(u.head); }
      }
    }
  }

  lemma RenderOne(m: Message)
    ensures RenderAll([m]) == [Render(m)] && Join([Render(m)] + RenderAll([])) == Render(m)
  {
    assert [m][1..] == [];
    assert [Render(m)] + RenderAll([]) == [Render(m)];
  }

  lemma OneMoreUnit(u: Unit, rest: seq<Unit>)
    requires Causal(u)
    ensures var units := [u] + rest;
            if IsInstruction(u.head) then
              Turns(Segments(units)) == Turns(Segments(rest)) && RenderAll(Spoken(Flatten(units))) == RenderAll(Spoken(Flatten(rest)))
            else
              var part := [Render(u.head)] + RenderAll(u.results);
              && Turns(Segments(units)) == [Join(part)] + Turns(Segments(rest))
              && RenderAll(Spoken(Flatten(units))) == part + RenderAll(Spoken(Flatten(rest)))
  {
    hide Causal, Render, Join;
    var all := [u.head] + u.results;
    var units := [u] + rest;
    assert units[1..] == rest && Segments(units)[1..] == Segments(rest);
    UnitSplits(u);
    SplitConcat(all, Flatten(rest));
    SplitConcat(Spoken(all), Spoken(Flatten(rest)));
    assert all[1..] == u.results;
  }

  /** Joining the turns of the units is joining their messages. */
  lemma {:induction false} TurnsOfUnits(units: seq<Unit>, before: seq<Text>)
    requires forall i :: 0 <= i < |units| ==> Causal(units[i])
    ensures Join(before + Turns(Segments(units))) == Join(before + RenderAll(Spoken(Flatten(units))))
    decreases |units|
  {
    if units == [] {
    } else {
      hide Causal, Render, Join, Turns, Segments, RenderAll, Spoken, Flatten;
      var u, rest := units[0], units[1..];
      assert units == [u] + rest;
      OneMoreUnit(u, rest);
      if IsInstruction(u.head) {
        TurnsOfUnits(rest, before);
      } else {
        var part := [Render(u.head)] + RenderAll(u.results);
        JoinSpread(before, part, Turns(Segments(rest)));
        TurnsOfUnits(rest, before + part);
        assert before + ([Join(part)] + Turns(Segments(rest))) == before + [Join(part)] + Turns(Segments(rest));
        assert before + (part + RenderAll(Spoken(Flatten(rest)))) == before + part + RenderAll(Spoken(Flatten(rest)));
      }
    }
  }

  // ---- unit boundaries ----

  lemma {:induction false} ToolRunOfPrefix(messages: seq<Message>, n: nat)
    requires ToolRun(messages) <= n <= |messages|
    ensures ToolRun(messages[..n]) == ToolRun(messages)
  {
    if messages != [] && messages[0].kind.Tool? {
      assert messages[..n][1..] == messages[1..][..n - 1];
      ToolRunOfPrefix(messages[1..], n - 1);
    }
  }

  /** Where the first q units end. */
  function Boundary(messages: seq<Message>, q: nat): (p: nat)
    requires q <= |Units(messages)|
    ensures p <= |messages|
  {
    if q == 0 then 0 else UnitLength(messages) + Boundary(messages[UnitLength(messages)..], q - 1)
  }

  lemma {:induction false} UnitsSplit(messages: seq<Message>, q: nat)
    requires q <= |Units(messages)|
    ensures var p := Boundary(messages, q); Units(messages[..p]) == Units(messages)[..q] && Units(messages[p..]) == Units(messages)[q..]
    decreases q
  {
    hide UnitLength, Calls, Units;
    var p := Boundary(messages, q);
    if q == 0 {
      assert messages[..0] == [] && messages[0..] == messages;
      NoUnits();
    } else {
      NoUnits();
      UnitsUnfold(messages);
      var n := UnitLength(messages);
      var rest := messages[n..];
      UnitsSplit(rest, q - 1);
      var front := messages[..p];
      assert UnitLength(front) == n by { FirstUnit(messages, p); }
      UnitsUnfold(front);
      assert front[1..n] == messages[1..n] && front[n..] == rest[..p - n] && messages[p..] == rest[p - n..];
    }
  }

  lemma FirstUnit(messages: seq<Message>, p: nat)
    requires messages != [] && UnitLength(messages) <= p <= |messages|
    ensures UnitLength(messages[..p]) == UnitLength(messages)
  {
    if Calls(messages[0]) {
      ToolRunOfPrefix(messages[1..], p - 1);
      assert messages[..p][1..] == messages[1..][..p - 1];
    }
  }

  lemma {:induction false} BoundaryRises(messages: seq<Message>, q: nat, r: nat)
    requires q <= r <= |Units(messages)|
    ensures Boundary(messages, q) <= Boundary(messages, r)
    decreases q
  {
    hide UnitLength, Calls;
    if q > 0 { BoundaryRises(messages[UnitLength(messages)..], q - 1, r - 1); }
  }

  lemma {:induction false} SegmentsAt(units: seq<Unit>, q: nat)
    requires q <= |units|
    ensures Segments(units)[q..] == Segments(units[q..])
    ensures q < |units| ==> Segments(units)[q] == SegmentOf(units[q])
  {
    hide SegmentOf;
    if q > 0 {
      SegmentsAt(units[1..], q - 1);
      assert Segments(units)[q..] == Segments(units[1..])[q - 1..];
      assert units[q..] == units[1..][q - 1..];
    } else {
      assert Segments(units)[0..] == Segments(units) && units[0..] == units;
    }
  }

  // ---- the current turn, in units and in messages ----

  lemma {:induction false} LastUserIs(segments: seq<Segment>)
    ensures var r := LastUser(segments);
            (r >= 0 ==> segments[r].hasUser) && forall i :: r < i < |segments| ==> !segments[i].hasUser
  {
    if segments != [] && !segments[|segments| - 1].hasUser { LastUserIs(segments[..|segments| - 1]); }
  }

  lemma {:induction false} NoUserIn(units: seq<Unit>)
    requires forall i :: 0 <= i < |units| ==> Causal(units[i]) && !units[i].head.kind.User?
    ensures forall i :: 0 <= i < |Flatten(units)| ==> !Flatten(units)[i].kind.User?
  {
    if units != [] { NoUserIn(units[1..]); }
  }

  lemma HeadsWithoutUser(messages: seq<Message>, q: nat)
    requires q <= |Units(messages)|
    requires forall i :: q <= i < |Units(messages)| ==> !Units(messages)[i].head.kind.User?
    ensures var p := Boundary(messages, q); forall i :: p <= i < |messages| ==> !messages[i].kind.User?
  {
    hide Causal, Units, Boundary, Flatten, Complete;
    var p, tail := Boundary(messages, q), Units(messages)[q..];
    UnitsSplit(messages, q);
    UnitsPartition(messages[p..]);
    assert Flatten(tail) == messages[p..];
    NoUserIn(tail);
    forall i | p <= i < |messages| ensures !messages[i].kind.User? { assert messages[i] == Flatten(tail)[i - p]; }
  }

  lemma UserHeads(units: seq<Unit>)
    ensures var r := LastUser(Segments(units));
            (r >= 0 ==> units[r].head.kind.User?) && forall i :: r < i < |units| ==> !units[i].head.kind.User?
  {
    hide Segments, LastUser;
    LastUserIs(Segments(units));
    forall i | 0 <= i < |units| ensures Segments(units)[i].hasUser == units[i].head.kind.User? { SegmentsAt(units, i); }
  }

  lemma NextBoundary(messages: seq<Message>, q: nat)
    requires q < |Units(messages)|
    ensures var p := Boundary(messages, q);
            p < |messages| && messages[p] == Units(messages)[q].head
            && Boundary(messages, q + 1) == p + 1 + |Units(messages)[q].results|
    decreases q
  {
    hide UnitLength;
    if q > 0 { NextBoundary(messages[UnitLength(messages)..], q - 1); }
  }

  /** The unit where the check starts is where the last user message stands. */
  lemma CurrentUnit(messages: seq<Message>)
    ensures Boundary(messages, ActiveStart(Segments(Units(messages)))) == CurrentStart(messages)
  {
    hide Units, Boundary, Segments, LastUser, Flatten, Complete;
    var units := Units(messages);
    var r := LastUser(Segments(units));
    UserHeads(units);
    if r >= 0 {
      NextBoundary(messages, r);
      UnitsPartition(messages);
      assert Causal(units[r]) && units[r].results == [];
      HeadsWithoutUser(messages, r + 1);
    } else {
      StartBoundary(messages);
      HeadsWithoutUser(messages, 0);
    }
  }

  lemma StartBoundary(messages: seq<Message>)
    ensures Boundary(messages, 0) == 0
  {}

  /** The turn number k of a list of segments starts at some segment. */
  lemma {:induction false} TurnPosition(segments: seq<Segment>, k: nat, limit: nat) returns (q: nat)
    requires limit <= |segments| && k <= |Turns(segments[..limit])|
    ensures q <= limit && |Turns(segments[..q])| == k <= |Turns(segments)| && Turns(segments)[k..] == Turns(segments[q..])
  {
    TurnsSplit(segments, limit);
    if |Turns(segments[..limit])| == k {
      q := limit;
    } else {
      hide Turns;
      SplitAppend(segments[..limit - 1], segments[limit - 1]);
      assert segments[..limit] == segments[..limit - 1] + [segments[limit - 1]];
      q := TurnPosition(segments, k, limit - 1);
    }
  }

  // ---- the prompt ----

  /** What the prompt holds, rendered. */
  function Held(messages: seq<Message>, p: nat, marked: bool): seq<Text>
    requires p <= |messages|
  {
    RenderAll(Layers(messages)) + (if marked then [CONTEXT_MARKER] else []) + RenderAll(Spoken(messages[p..]))
  }

  lemma PartsSpread(layers: seq<Text>, marker: seq<Text>, turns: seq<Text>)
    ensures Join((if layers != [] then [Join(layers)] else []) + (marker + turns)) == Join(layers + marker + turns)
  {
    hide Join;
    Assoc(layers, marker, turns);
    if layers != [] {
      JoinSpread([], layers, marker + turns);
      NothingBefore([Join(layers)]);
      NothingBefore(layers);
    } else {
      NothingBefore(marker + turns);
    }
  }

  lemma NothingBefore(a: seq<Text>)
    ensures [] + a == a
  {}

  lemma PartsAreHeld(messages: seq<Message>, q: nat, marked: bool)
    requires q <= |Units(messages)|
    ensures var segments := Segments(Units(messages));
            Join(Parts(Instructions(segments), marked, Turns(segments[q..]))) == Join(Held(messages, Boundary(messages, q), marked))
  {
    hide Join, Turns, Segments, Units, Boundary, Flatten, RenderAll, Layers, Spoken, Instructions, Causal, Complete;
    var units, p := Units(messages), Boundary(messages, q);
    var layers := Instructions(Segments(units));
    var marker := if marked then [CONTEXT_MARKER] else [];
    UnitsSplit(messages, q);
    UnitsPartition(messages);
    UnitsPartition(messages[p..]);
    LayersOfUnits(units);
    SegmentsAt(units, q);
    PartsSpread(layers, marker, Turns(Segments(units)[q..]));
    TurnsOfUnits(units[q..], layers + marker);
  }

  lemma MarkerOpens()
    ensures CONTEXT_MARKER != [] && CONTEXT_MARKER[0] == OPEN
  {}

  lemma JoinOpens(held: seq<Text>)
    requires held != [] && held[0] != []
    ensures Join(held) != [] && Join(held)[0] == held[0][0]
  {}

  /** A prompt that holds any message is not blank. */
  lemma HeldIsNotBlank(messages: seq<Message>, p: nat, marked: bool)
    requires p <= CurrentStart(messages) && messages != []
    ensures !Blank(Join(Held(messages, p, marked)))
  {
    hide CONTEXT_MARKER, RenderAll, Layers, Spoken, Join, CurrentStart;
    var held := Held(messages, p, marked);
    HoldsSome(messages, p);
    RenderedOpens(Layers(messages));
    RenderedOpens(Spoken(messages[p..]));
    MarkerOpens();
    JoinOpens(held);
  }

  lemma RenderedOpens(messages: seq<Message>)
    ensures |RenderAll(messages)| == |messages|
    ensures messages != [] ==> RenderAll(messages)[0] != [] && RenderAll(messages)[0][0] == OPEN
  {}

  lemma HoldsSome(messages: seq<Message>, p: nat)
    requires p <= CurrentStart(messages) && messages != []
    ensures Layers(messages) != [] || Spoken(messages[p..]) != []
  {
    var c := CurrentStart(messages);
    if LastUserMessage(messages) >= 0 {
      assert messages[p..] == messages[p..c] + messages[c..];
      SplitConcat(messages[p..c], messages[c..]);
    } else {
      assert messages[0..] == messages;
    }
  }

  /**
   * When the layers fit within their thirds and the check passes, the prompt of a chat history is, in
   * this order: every instruction message, perhaps the truncation marker, and every other message from
   * some point on.  That point separates no result from its call and does not lie after the last user
   * message.
   */
  lemma ChatPromptKeepsCurrentTurn(messages: seq<Message>, maxCharacters: nat, maxTokens: nat, cut: Cut) returns (p: nat, marked: bool)
    requires messages != []
    requires var segments := Segments(Units(messages));
             LayersFit(segments, maxCharacters, maxTokens) && CurrentTurnFits(segments, maxCharacters, maxTokens)
    ensures p <= CurrentStart(messages) && (marked ==> p > 0)
    ensures Units(messages) == Units(messages[..p]) + Units(messages[p..])
    ensures var result := Join(Held(messages, p, marked));
            ChatPrompt(messages, maxCharacters, maxTokens, cut) == Some(result)
            && |result| <= maxCharacters && Estimate(result) <= maxTokens
  {
    hide LayersFit, CurrentTurnFits, BoundPrompt, Turns, Segments, Units, Active, Join, Estimate, Instructions, Parts, Held, Boundary, CurrentStart, Blank,
         ActiveStart;
    var units := Units(messages);
    var segments := Segments(units);
    SegmentsAreRendered(units);
    var k, mark := CurrentTurnIsNeverTrimmed(segments, maxCharacters, maxTokens, cut);
    var start := ActiveStart(segments);
    assert k <= |Turns(segments[..start])| by { OlderTurns(segments); }
    var q := TurnPosition(segments, k, start);
    p, marked := Boundary(messages, q), mark;
    CurrentUnit(messages);
    BoundaryRises(messages, q, start);
    UnitsSplit(messages, q);
    assert units == units[..q] + units[q..];
    PartsAreHeld(messages, q, marked);
    HeldIsNotBlank(messages, p, marked);
    if marked { LaterBoundary(messages, segments, q); }
  }

  lemma OlderTurns(segments: seq<Segment>)
    ensures |Turns(segments[..ActiveStart(segments)])| == |Turns(segments)| - |Active(segments)|
  {
    hide Turns;
    TurnsSplit(segments, ActiveStart(segments));
  }

  lemma LaterBoundary(messages: seq<Message>, segments: seq<Segment>, q: nat)
    requires q <= |Units(messages)| && q <= |segments| && |Turns(segments[..q])| > 0
    ensures Boundary(messages, q) > 0
  {
    hide UnitLength, Units;
  }
}
