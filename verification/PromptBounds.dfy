/**
 * Bounded prompt assembly from a chat history: causal units, the check that the current turn fits,
 * and the selection of instruction layers and of the newest turns.
 */
module PromptBounds {
  import opened Common
  import opened TokenEstimate

  datatype Kind = System | Developer | User | Assistant | Tool | OtherRole

  /** A message with its upper-case role and its rendered content. */
  datatype Message = Message(kind: Kind, heading: Text, calls: bool, body: Text)

  const OPEN := 91
  const GAP: Text := [10, 10]

  function Join(parts: seq<Text>): Text {
    if parts == [] then []
    else if |parts| == 1 then parts[0]
    else parts[0] + GAP + Join(parts[1..])
  }

  function Ascii(s: string): (t: Text)
    ensures |t| == |s|
  {
    seq(|s|, i requires 0 <= i < |s| => s[i] as int)
  }

  const CONTEXT_MARKER := [OPEN] + Ascii("CONTEXT TRUNCATED: oldest non-instruction turns omitted]")
  const INSTRUCTION_MARKER := [10] + Ascii("[INSTRUCTION TRUNCATED]")

  // ---- causal units ----

  predicate Calls(m: Message) {
    m.kind.Assistant? && m.calls
  }

  /** How many tool results open the list. */
  function ToolRun(messages: seq<Message>): (n: nat)
    ensures n <= |messages|
  {
    if messages == [] || !messages[0].kind.Tool? then 0 else 1 + ToolRun(messages[1..])
  }

  function UnitLength(messages: seq<Message>): (n: nat)
    requires messages != []
    ensures 0 < n <= |messages|
  {
    if Calls(messages[0]) then 1 + ToolRun(messages[1..]) else 1
  }

  /** A call together with every result that follows it, or a single message. */
  datatype Unit = Unit(head: Message, results: seq<Message>)

  function Units(messages: seq<Message>): seq<Unit> {
    if messages == [] then []
    else [Unit(messages[0], messages[1..UnitLength(messages)])] + Units(messages[UnitLength(messages)..])
  }

  lemma UnitsUnfold(messages: seq<Message>)
    requires messages != []
    ensures var n := UnitLength(messages); Units(messages) == [Unit(messages[0], messages[1..n])] + Units(messages[n..])
  {
    hide UnitLength;
  }

  /** chatPromptUnits */
  method ChatPromptUnits(messages: seq<Message>) returns (units: seq<Unit>)
    ensures units == Units(messages)
  {
    hide ToolRun, Units;
    units := [];
    var index := 0;
    assert messages[0..] == messages;
    while index < |messages|
      invariant index <= |messages| && Units(messages) == units + Units(messages[index..])
    {
      ghost var rest := messages[index..];
      UnitsUnfold(rest);
      var start := index;
      index := index + 1;
      if Calls(messages[start]) {
        assert messages[index..] == rest[1..];
        var n := CountTools(messages[index..]);
        index := index + n;
      }
      assert messages[start + 1..index] == rest[1..UnitLength(rest)];
      assert messages[index..] == rest[UnitLength(rest)..];
      units := units + [Unit(messages[start], messages[start + 1..index])];
    }
    NoUnits();
    assert messages[index..] == [] && units + [] == units;
  }

  lemma NoUnits()
    ensures Units([]) == []
  {}

  method CountTools(messages: seq<Message>) returns (n: nat)
    ensures n == ToolRun(messages)
  {
    n := 0;
    while n < |messages| && messages[n].kind.Tool?
      invariant n <= |messages| && ToolRun(messages) == n + ToolRun(messages[n..])
    {
      assert messages[n..][1..] == messages[n + 1..];
      n := n + 1;
    }
  }

  function Flatten(units: seq<Unit>): seq<Message> {
    if units == [] then [] else [units[0].head] + units[0].results + Flatten(units[1..])
  }

  lemma {:induction false} ToolRunAre(messages: seq<Message>)
    ensures forall i :: 0 <= i < ToolRun(messages) ==> messages[i].kind.Tool?
    ensures ToolRun(messages) < |messages| ==> !messages[ToolRun(messages)].kind.Tool?
  {
    if messages != [] && messages[0].kind.Tool? {
      ToolRunAre(messages[1..]);
      assert forall i :: 0 < i < |messages| ==> messages[i] == messages[1..][i - 1];
    }
  }

  /** A unit is one message, or an assistant's calls followed by results only. */
  predicate Causal(u: Unit) {
    (u.results != [] ==> Calls(u.head)) && forall i :: 0 <= i < |u.results| ==> u.results[i].kind.Tool?
  }

  /** A unit of calls is not followed by a result that belongs to it. */
  predicate Complete(units: seq<Unit>) {
    forall i :: 0 <= i < |units| - 1 && Calls(units[i].head) ==> !units[i + 1].head.kind.Tool?
  }

  lemma UnitIsCausal(messages: seq<Message>)
    requires messages != []
    ensures var n := UnitLength(messages);
            Causal(Unit(messages[0], messages[1..n])) && (n < |messages| && Calls(messages[0]) ==> !messages[n].kind.Tool?)
  {
    hide ToolRun;
    ToolRunAre(messages[1..]);
    var n := UnitLength(messages);
    assert forall i :: 0 <= i < n - 1 ==> messages[1..n][i] == messages[1..][i];
    assert n < |messages| ==> messages[n] == messages[1..][n - 1];
  }

  /** The units are the messages in order; no call is separated from a result that follows it. */
  lemma {:induction false} UnitsPartition(messages: seq<Message>)
    ensures Flatten(Units(messages)) == messages
    ensures (forall i :: 0 <= i < |Units(messages)| ==> Causal(Units(messages)[i])) && Complete(Units(messages))
    ensures messages != [] ==> Units(messages) != [] && Units(messages)[0].head == messages[0]
  {
    hide UnitLength, Causal, Calls;
    if messages != [] {
      var n := UnitLength(messages);
      var rest := messages[n..];
      UnitsPartition(rest);
      UnitIsCausal(messages);
      assert messages == [messages[0]] + messages[1..n] + rest;
      var units := Units(messages);
      assert units[1..] == Units(rest);
      forall i | 0 <= i < |units| - 1 && Calls(units[i].head) ensures !units[i + 1].head.kind.Tool? {
        if i > 0 {
          assert units[i] == Units(rest)[i - 1] && units[i + 1] == Units(rest)[i];
        } else {
          assert units[1] == Units(rest)[0];
        }
      }
    }
  }

  // ---- segments ----

  datatype Segment = Segment(instruction: bool, hasUser: bool, value: Text)

  function Render(m: Message): Text {
    [OPEN] + m.heading + [93, 10] + m.body
  }

  function RenderAll(messages: seq<Message>): seq<Text> {
    if messages == [] then [] else [Render(messages[0])] + RenderAll(messages[1..])
  }

  function SegmentOf(u: Unit): Segment {
    Segment(u.head.kind.System? || u.head.kind.Developer?, u.head.kind.User?, Join([Render(u.head)] + RenderAll(u.results)))
  }

  function Segments(units: seq<Unit>): (r: seq<Segment>)
    ensures |r| == |units|
  {
    if units == [] then [] else [SegmentOf(units[0])] + Segments(units[1..])
  }

  /** Rendered text opens with a bracket, so it is not empty and costs at least one token. */
  predicate Rendered(v: Text) {
    v != [] && v[0] == OPEN
  }

  predicate AllRendered(vals: seq<Text>) {
    forall i :: 0 <= i < |vals| ==> Rendered(vals[i])
  }

  lemma RenderedCosts(v: Text)
    requires Rendered(v)
    ensures Estimate(v) >= 1
  {
    CountUnfold(v);
    hide Count;
  }

  /** Every segment of a chat history is rendered text. */
  lemma {:induction false} SegmentsAreRendered(units: seq<Unit>)
    ensures forall i :: 0 <= i < |units| ==> Rendered(Segments(units)[i].value)
  {
    hide Join;
    if units != [] {
      SegmentsAreRendered(units[1..]);
      UnitIsRendered(units[0]);
    }
  }

  lemma UnitIsRendered(u: Unit)
    ensures Rendered(SegmentOf(u).value)
  {
    var parts := [Render(u.head)] + RenderAll(u.results);
    assert parts[0] == Render(u.head);
  }

  function Instructions(segments: seq<Segment>): seq<Text> {
    if segments == [] then []
    else (if segments[0].instruction then [segments[0].value] else []) + Instructions(segments[1..])
  }

  function Turns(segments: seq<Segment>): seq<Text> {
    if segments == [] then []
    else (if segments[0].instruction then [] else [segments[0].value]) + Turns(segments[1..])
  }

  function SumTokens(vals: seq<Text>): nat {
    if vals == [] then 0 else Estimate(vals[0]) + SumTokens(vals[1..])
  }

  // ---- the check of the current turn ----

  function LastUser(segments: seq<Segment>): (r: int)
    ensures -1 <= r < |segments|
  {
    if segments == [] then -1
    else if segments[|segments| - 1].hasUser then |segments| - 1
    else LastUser(segments[..|segments| - 1])
  }

  /** Where the current turn starts: the last user unit, or the beginning. */
  function ActiveStart(segments: seq<Segment>): (r: nat)
    ensures r <= |segments|
  {
    if LastUser(segments) >= 0 then LastUser(segments) else 0
  }

  function Active(segments: seq<Segment>): seq<Text> {
    Turns(segments[ActiveStart(segments)..])
  }

  /** The characters that the check grants the instruction layers, oldest first. */
  function GrantedLength(vals: seq<Text>, length: nat, budget: int): nat {
    if vals == [] then length
    else
      var separator := if length > 0 then 2 else 0;
      var available := budget - length - separator;
      if available <= 0 then length
      else GrantedLength(vals[1..], length + Min(|vals[0]|, available) + separator, budget)
  }

  /** Lengths with two characters between non-empty accumulations. */
  function TurnLength(vals: seq<Text>, length: nat): nat {
    if vals == [] then length else TurnLength(vals[1..], length + |vals[0]| + if length > 0 then 2 else 0)
  }

  /** ensureCurrentTurnFits does not throw. */
  predicate CurrentTurnFits(segments: seq<Segment>, maxCharacters: nat, maxTokens: nat) {
    var granted := GrantedLength(Instructions(segments), 0, maxCharacters / 3);
    var active := Active(segments);
    var activeLength := TurnLength(active, 0);
    var reserved := Min(maxTokens / 3, Estimate(Join(Instructions(segments))));
    && activeLength <= maxCharacters - granted - (if granted > 0 && activeLength > 0 then 2 else 0)
    && SumTokens(active) <= maxTokens - reserved
  }

  lemma {:induction false} SumAppend(vals: seq<Text>, v: Text)
    ensures SumTokens(vals + [v]) == SumTokens(vals) + Estimate(v)
  {
    hide Estimate;
    if vals == [] {
      assert [] + [v] == [v];
    } else {
      SumAppend(vals[1..], v);
      assert (vals + [v])[1..] == vals[1..] + [v];
    }
  }

  lemma {:induction false} TurnLengthAppend(vals: seq<Text>, v: Text, length: nat)
    ensures var n := TurnLength(vals, length); TurnLength(vals + [v], length) == n + |v| + if n > 0 then 2 else 0
  {
    if vals == [] {
      assert [] + [v] == [v];
      assert [v][1..] == [];
    } else {
      TurnLengthAppend(vals[1..], v, length + |vals[0]| + if length > 0 then 2 else 0);
      assert (vals + [v])[1..] == vals[1..] + [v];
    }
  }

  lemma {:induction false} SplitAppend(segments: seq<Segment>, s: Segment)
    ensures Turns(segments + [s]) == Turns(segments) + (if s.instruction then [] else [s.value])
    ensures Instructions(segments + [s]) == Instructions(segments) + (if s.instruction then [s.value] else [])
  {
    if segments == [] {
      assert [] + [s] == [s];
      assert [s][1..] == [];
    } else {
      SplitAppend(segments[1..], s);
      assert (segments + [s])[1..] == segments[1..] + [s];
    }
  }

  method FindLastUser(segments: seq<Segment>) returns (r: int)
    ensures r == LastUser(segments)
  {
    r := -1;
    for index := 0 to |segments|
      invariant r == LastUser(segments[..index])
    {
      assert segments[..index + 1][..index] == segments[..index];
      if segments[index].hasUser {
        r := index;
      }
    }
    assert segments[..|segments|] == segments;
  }

  method GrantedCharacters(segments: seq<Segment>, budget: nat) returns (length: nat)
    ensures length == GrantedLength(Instructions(segments), 0, budget)
  {
    length := 0;
    var i := 0;
    assert segments[0..] == segments;
    while i < |segments|
      invariant i <= |segments|
      invariant GrantedLength(Instructions(segments), 0, budget) == GrantedLength(Instructions(segments[i..]), length, budget)
    {
      FirstSegment(segments, i);
      if segments[i].instruction {
        var separator := if length > 0 then 2 else 0;
        var available := budget - length - separator;
        if available <= 0 {
          return;
        }
        length := length + Min(|segments[i].value|, available) + separator;
      }
      i := i + 1;
    }
  }

  lemma FirstSegment(segments: seq<Segment>, i: nat)
    requires i < |segments|
    ensures segments[i].instruction ==> Instructions(segments[i..]) == [segments[i].value] + Instructions(segments[i + 1..])
    ensures !segments[i].instruction ==> Instructions(segments[i..]) == Instructions(segments[i + 1..])
  {
    assert segments[i..][1..] == segments[i + 1..];
  }

  method ActiveSize(segments: seq<Segment>, start: nat) returns (length: nat, tokens: nat)
    requires start <= |segments|
    ensures length == TurnLength(Turns(segments[start..]), 0) && tokens == SumTokens(Turns(segments[start..]))
  {
    hide Estimate;
    length, tokens := 0, 0;
    assert segments[start..start] == [];
    for index := start to |segments|
      invariant length == TurnLength(Turns(segments[start..index]), 0) && tokens == SumTokens(Turns(segments[start..index]))
    {
      NextTurn(segments[start..index], segments[index]);
      assert segments[start..index + 1] == segments[start..index] + [segments[index]];
      if !segments[index].instruction {
        length := length + |segments[index].value| + if length > 0 then 2 else 0;
        tokens := tokens + Estimate(segments[index].value);
      }
    }
    assert segments[start..|segments|] == segments[start..];
  }

  lemma NextTurn(segments: seq<Segment>, s: Segment)
    ensures var n, m := TurnLength(Turns(segments), 0), SumTokens(Turns(segments));
            TurnLength(Turns(segments + [s]), 0) == (if s.instruction then n else n + |s.value| + if n > 0 then 2 else 0)
            && SumTokens(Turns(segments + [s])) == (if s.instruction then m else m + Estimate(s.value))
  {
    hide Estimate, Turns, TurnLength, SumTokens;
    SplitAppend(segments, s);
    if s.instruction {
      assert Turns(segments) + [] == Turns(segments);
    } else {
      TurnLengthAppend(Turns(segments), s.value, 0);
      SumAppend(Turns(segments), s.value);
    }
  }

  method EnsureCurrentTurnFits(segments: seq<Segment>, maxCharacters: nat, maxTokens: nat) returns (ok: bool)
    ensures ok == CurrentTurnFits(segments, maxCharacters, maxTokens)
  {
    hide Estimate, Join, GrantedLength, Turns, TurnLength, SumTokens;
    var instructionLength := GrantedCharacters(segments, maxCharacters / 3);
    var lastUser := FindLastUser(segments);
    var activeLength, activeTokens := ActiveSize(segments, if lastUser >= 0 then lastUser else 0);
    if activeLength > maxCharacters - instructionLength - (if instructionLength > 0 && activeLength > 0 then 2 else 0) {
      return false;
    }
    var reserved := Min(maxTokens / 3, Estimate(Join(Instructions(segments))));
    return activeTokens <= maxTokens - reserved;
  }

  // ---- the selection ----

  /** Where prefixWithinLimits would cut an instruction layer that does not fit. */
  type Cut = (Text, int, int) -> nat

  /** A truncated layer: a prefix and the marker, within the characters left. */
  function Truncated(v: Text, characters: int, tokens: int, cut: Cut): (r: Text)
    requires characters > 0
    ensures |r| <= characters
  {
    var room := Max(0, characters - |INSTRUCTION_MARKER|);
    var end := Min(Min(cut(v, room, Max(0, tokens - Estimate(INSTRUCTION_MARKER))), |v|), room);
    var text := v[..end] + INSTRUCTION_MARKER;
    if |text| <= characters then text else text[..characters]
  }

  /** The instruction layers kept, newest first, in front of those already kept. */
  function KeepLayers(vals: seq<Text>, kept: seq<Text>, length: int, tokens: int, characterBudget: int, tokenBudget: int, cut: Cut): seq<Text> {
    if vals == [] then kept
    else
      var n := |vals| - 1;
      var separator := if kept != [] then 2 else 0;
      var characters, left := characterBudget - length - separator, tokenBudget - tokens;
      if characters <= 0 || left <= 0 then kept
      else
        var v := if |vals[n]| <= characters && Estimate(vals[n]) <= left then vals[n] else Truncated(vals[n], characters, left, cut);
        KeepLayers(vals[..n], [v] + kept, length + |v| + separator, tokens + Estimate(v), characterBudget, tokenBudget, cut)
  }

  datatype History = History(kept: seq<Text>, length: int, tokens: int, overflow: bool)

  /** The newest turns that fit, up to the first that does not. */
  function KeepTurns(vals: seq<Text>, kept: seq<Text>, length: int, tokens: int, characterBudget: int, tokenBudget: int): History {
    if vals == [] then History(kept, length, tokens, false)
    else
      var v := vals[|vals| - 1];
      var separator := if kept != [] then 2 else 0;
      if |v| + separator <= characterBudget - length && Estimate(v) <= tokenBudget - tokens then
        KeepTurns(vals[..|vals| - 1], [v] + kept, length + |v| + separator, tokens + Estimate(v), characterBudget, tokenBudget)
      else History(kept, length, tokens, true)
  }

  function Marked(h: History, characterBudget: int, tokenBudget: int): seq<Text> {
    var characters := |CONTEXT_MARKER| + if h.kept != [] then 2 else 0;
    if h.overflow && h.length + characters <= characterBudget && h.tokens + Estimate(CONTEXT_MARKER) <= tokenBudget
    then [CONTEXT_MARKER] + h.kept else h.kept
  }

  /** boundPrompt: the assembled prompt, None where it throws. */
  function Assembled(layers: seq<Text>, turns: seq<Text>, maxCharacters: int, maxTokens: int): Option<Text> {
    var instruction := Join(layers);
    var characterBudget := maxCharacters - |instruction| - if instruction != [] then 2 else 0;
    var tokenBudget := maxTokens - Estimate(instruction);
    var newest := Marked(KeepTurns(turns, [], 0, 0, characterBudget, tokenBudget), characterBudget, tokenBudget);
    var result := Join((if instruction != [] then [instruction] else []) + newest);
    if |result| > maxCharacters || Estimate(result) > maxTokens then None else Some(result)
  }

  function BoundPrompt(segments: seq<Segment>, maxCharacters: nat, maxTokens: nat, cut: Cut): Option<Text> {
    Assembled(KeepLayers(Instructions(segments), [], 0, 0, maxCharacters / 3, maxTokens / 3, cut), Turns(segments), maxCharacters, maxTokens)
  }

  // ---- lengths and tokens of a join ----

  lemma {:induction false} JoinConcat(a: seq<Text>, b: seq<Text>)
    ensures |Join(a + b)| == |Join(a)| + |Join(b)| + if a != [] && b != [] then 2 else 0
  {
    if a == [] {
      assert a + b == b;
    } else {
      assert (a + b)[1..] == a[1..] + b;
      JoinConcat(a[1..], b);
    }
  }

  lemma JoinOne(v: Text)
    ensures Join([v]) == v
  {}

  lemma {:induction false} SumConcat(a: seq<Text>, b: seq<Text>)
    ensures SumTokens(a + b) == SumTokens(a) + SumTokens(b)
  {
    hide Estimate;
    if a == [] {
      assert a + b == b;
    } else {
      assert (a + b)[1..] == a[1..] + b;
      SumConcat(a[1..], b);
    }
  }

  lemma SumOne(v: Text)
    ensures SumTokens([v]) == Estimate(v)
  {
    hide Estimate;
  }

  lemma GapIsFree()
    ensures Estimate(GAP) == 0 && Estimate([]) == 0
  {
    hide Estimate;
    BlankLineIsFree();
  }

  /** Joining costs no tokens. */
  lemma {:induction false} JoinIsFree(parts: seq<Text>)
    ensures Estimate(Join(parts)) <= SumTokens(parts)
  {
    hide Estimate;
    GapIsFree();
    if |parts| == 1 {
      SumOne(parts[0]);
      assert parts == [parts[0]];
    } else if |parts| > 1 {
      JoinIsFree(parts[1..]);
      EstimateIsSubadditive(parts[0] + GAP, Join(parts[1..]));
      EstimateIsSubadditive(parts[0], GAP);
    }
  }

  lemma {:induction false} TurnLengthIsJoin(vals: seq<Text>)
    requires AllRendered(vals)
    ensures TurnLength(vals, 0) == |Join(vals)| && (vals != [] ==> |Join(vals)| > 0)
    decreases |vals|
  {
    if vals != [] {
      var n := |vals| - 1;
      TurnLengthIsJoin(vals[..n]);
      assert vals == vals[..n] + [vals[n]];
      TurnLengthAppend(vals[..n], vals[n], 0);
      JoinConcat(vals[..n], [vals[n]]);
      JoinOne(vals[n]);
    }
  }

  // ---- instruction layers that fit are all kept ----

  lemma {:induction false} AllLayersKept(vals: seq<Text>, kept: seq<Text>, characterBudget: int, tokenBudget: int, cut: Cut)
    requires AllRendered(vals)
    requires |Join(vals + kept)| <= characterBudget && SumTokens(vals + kept) <= tokenBudget
    ensures KeepLayers(vals, kept, |Join(kept)|, SumTokens(kept), characterBudget, tokenBudget, cut) == vals + kept
    decreases |vals|
  {
    hide Estimate, Truncated, Join, SumTokens;
    if vals == [] {
      assert vals + kept == kept;
    } else {
      var n := |vals| - 1;
      var front, v := vals[..n], vals[n];
      assert Rendered(v);
      RenderedCosts(v);
      assert vals + kept == front + ([v] + kept);
      JoinConcat(front, [v] + kept);
      JoinConcat([v], kept);
      JoinOne(v);
      SumConcat(front, [v] + kept);
      SumConcat([v], kept);
      SumOne(v);
      AllLayersKept(front, [v] + kept, characterBudget, tokenBudget, cut);
    }
  }

  lemma {:induction false} GrantedWhenFitting(vals: seq<Text>, done: seq<Text>, budget: nat)
    requires AllRendered(vals) && AllRendered(done) && |Join(done + vals)| <= budget
    ensures GrantedLength(vals, |Join(done)|, budget) == |Join(done + vals)|
    decreases |vals|
  {
    hide Join;
    if vals == [] {
      assert done + vals == done;
    } else {
      var v := vals[0];
      assert Rendered(v);
      assert done + vals == (done + [v]) + vals[1..];
      JoinConcat(done, [v]);
      JoinConcat(done + [v], vals[1..]);
      JoinOne(v);
      NonEmptyJoin(done);
      assert AllRendered(done + [v]);
      GrantedWhenFitting(vals[1..], done + [v], budget);
    }
  }

  lemma NonEmptyJoin(vals: seq<Text>)
    requires AllRendered(vals)
    ensures |Join(vals)| > 0 <==> vals != []
  {
    TurnLengthIsJoin(vals);
    EmptyJoin();
  }

  lemma EmptyJoin()
    ensures Join([]) == [] && SumTokens([]) == 0
  {}

  // ---- the newest turns ----

  predicate Fits(v: Text, kept: seq<Text>, characterBudget: int, tokenBudget: int) {
    |Join([v] + kept)| <= characterBudget && SumTokens([v] + kept) <= tokenBudget
  }

  /** One turn considered, with the counters read as what they count. */
  lemma OneTurn(vals: seq<Text>, kept: seq<Text>, characterBudget: int, tokenBudget: int)
    ensures vals == [] ==>
      KeepTurns(vals, kept, |Join(kept)|, SumTokens(kept), characterBudget, tokenBudget) == History(kept, |Join(kept)|, SumTokens(kept), false)
    ensures vals != [] ==>
      var n := |vals| - 1;
      var v := vals[n];
      KeepTurns(vals, kept, |Join(kept)|, SumTokens(kept), characterBudget, tokenBudget) ==
        if Fits(v, kept, characterBudget, tokenBudget)
        then KeepTurns(vals[..n], [v] + kept, |Join([v] + kept)|, SumTokens([v] + kept), characterBudget, tokenBudget)
        else History(kept, |Join(kept)|, SumTokens(kept), true)
  {
    hide Estimate, Join, SumTokens;
    if vals != [] {
      var v := vals[|vals| - 1];
      JoinConcat([v], kept);
      JoinOne(v);
      SumConcat([v], kept);
      SumOne(v);
    }
  }

  /** What KeepTurns keeps is a suffix, accounted exactly and within both budgets. */
  lemma {:induction false} KeptIsSuffix(vals: seq<Text>, kept: seq<Text>, characterBudget: int, tokenBudget: int)
    returns (k: nat)
    requires (|Join(kept)| <= characterBudget && SumTokens(kept) <= tokenBudget) || kept == []
    ensures var h := KeepTurns(vals, kept, |Join(kept)|, SumTokens(kept), characterBudget, tokenBudget);
            k <= |vals| && h.kept == vals[k..] + kept && h.length == |Join(h.kept)| && h.tokens == SumTokens(h.kept)
            && (h.kept == [] || (h.length <= characterBudget && h.tokens <= tokenBudget)) && (h.overflow <==> k > 0)
    decreases |vals|
  {
    hide Join, SumTokens, KeepTurns;
    k := |vals|;
    assert vals[k..] + kept == kept;
    OneTurn(vals, kept, characterBudget, tokenBudget);
    if vals != [] {
      var n := |vals| - 1;
      var v := vals[n];
      if Fits(v, kept, characterBudget, tokenBudget) {
        k := KeptIsSuffix(vals[..n], [v] + kept, characterBudget, tokenBudget);
        assert vals[..n][k..] + ([v] + kept) == vals[k..] + kept;
      }
    }
  }

  /** Turns that fit together are all kept before any older one is looked at. */
  lemma {:induction false} FittingTurnsKept(older: seq<Text>, vals: seq<Text>, kept: seq<Text>, characterBudget: int, tokenBudget: int)
    requires |Join(vals + kept)| <= characterBudget && SumTokens(vals + kept) <= tokenBudget
    ensures KeepTurns(older + vals, kept, |Join(kept)|, SumTokens(kept), characterBudget, tokenBudget)
            == KeepTurns(older, vals + kept, |Join(vals + kept)|, SumTokens(vals + kept), characterBudget, tokenBudget)
    decreases |vals|
  {
    hide Estimate, Join, SumTokens;
    if vals == [] {
      assert older + vals == older && vals + kept == kept;
    } else {
      var n := |vals| - 1;
      var front, v := vals[..n], vals[n];
      var all := older + vals;
      assert all[|all| - 1] == v && all[..|all| - 1] == older + front;
      assert vals + kept == front + ([v] + kept);
      JoinConcat(front, [v] + kept);
      JoinConcat([v], kept);
      JoinOne(v);
      SumConcat(front, [v] + kept);
      SumConcat([v], kept);
      SumOne(v);
      FittingTurnsKept(older, front, [v] + kept, characterBudget, tokenBudget);
    }
  }

  // ---- the current turn is never trimmed ----

  lemma {:induction false} TurnsSplit(segments: seq<Segment>, n: nat)
    requires n <= |segments|
    ensures Turns(segments) == Turns(segments[..n]) + Turns(segments[n..])
  {
    if n == 0 {
      assert segments[0..] == segments && segments[..0] == [];
    } else {
      TurnsSplit(segments[1..], n - 1);
      assert segments[..n][1..] == segments[1..][..n - 1] && segments[n..] == segments[1..][n - 1..];
    }
  }

  lemma {:induction false} ListsRendered(segments: seq<Segment>)
    requires forall i :: 0 <= i < |segments| ==> Rendered(segments[i].value)
    ensures AllRendered(Turns(segments)) && AllRendered(Instructions(segments))
  {
    if segments != [] { ListsRendered(segments[1..]); }
  }

  /** The instruction layers fit within their third of both budgets. */
  predicate LayersFit(segments: seq<Segment>, maxCharacters: nat, maxTokens: nat) {
    |Join(Instructions(segments))| <= maxCharacters / 3 && SumTokens(Instructions(segments)) <= maxTokens / 3
  }

  /** What the check says in terms of the two budgets that the selection works with. */
  lemma ActiveFitsBudgets(segments: seq<Segment>, maxCharacters: nat, maxTokens: nat)
    requires forall i :: 0 <= i < |segments| ==> Rendered(segments[i].value)
    requires LayersFit(segments, maxCharacters, maxTokens) && CurrentTurnFits(segments, maxCharacters, maxTokens)
    ensures var instruction := Join(Instructions(segments));
            && |Join(Active(segments))| <= maxCharacters - |instruction| - (if instruction != [] then 2 else 0)
            && SumTokens(Active(segments)) <= maxTokens - Estimate(instruction)
  {
    hide Estimate, Join, TurnLength, GrantedLength, SumTokens;
    var layers := Instructions(segments);
    ListsRendered(segments);
    ListsRendered(segments[ActiveStart(segments)..]);
    assert [] + layers == layers;
    EmptyJoin();
    GrantedWhenFitting(layers, [], maxCharacters / 3);
    TurnLengthIsJoin(Active(segments));
    NonEmptyJoin(Active(segments));
    JoinIsFree(layers);
  }

  function Parts(layers: seq<Text>, marked: bool, kept: seq<Text>): seq<Text> {
    (if layers != [] then [Join(layers)] else []) + ((if marked then [CONTEXT_MARKER] else []) + kept)
  }

  /** Layers and turns within their budgets assemble without the final size error. */
  lemma AssembledFits(layers: seq<Text>, newest: seq<Text>, maxCharacters: int, maxTokens: int)
    requires AllRendered(layers) && |Join(layers)| <= maxCharacters && Estimate(Join(layers)) <= maxTokens
    requires newest == [] || (|Join(newest)| <= maxCharacters - |Join(layers)| - (if layers != [] then 2 else 0)
                              && SumTokens(newest) <= maxTokens - Estimate(Join(layers)))
    ensures var result := Join((if layers != [] then [Join(layers)] else []) + newest);
            |result| <= maxCharacters && Estimate(result) <= maxTokens
  {
    hide Estimate, Join, SumTokens;
    var first := if layers != [] then [Join(layers)] else [];
    JoinConcat(first, newest);
    SumConcat(first, newest);
    JoinOne(Join(layers));
    SumOne(Join(layers));
    EmptyJoin();
    JoinIsFree(first + newest);
  }

  lemma MarkedFits(h: History, characterBudget: int, tokenBudget: int) returns (marked: bool)
    requires h.length == |Join(h.kept)| && h.tokens == SumTokens(h.kept)
    requires h.kept == [] || (h.length <= characterBudget && h.tokens <= tokenBudget)
    ensures var newest := Marked(h, characterBudget, tokenBudget);
            newest == (if marked then [CONTEXT_MARKER] else []) + h.kept && (marked ==> h.overflow)
            && (newest == [] || (|Join(newest)| <= characterBudget && SumTokens(newest) <= tokenBudget))
  {
    hide Estimate, Join, SumTokens;
    marked := Marked(h, characterBudget, tokenBudget) != h.kept;
    JoinConcat([CONTEXT_MARKER], h.kept);
    JoinOne(CONTEXT_MARKER);
    SumConcat([CONTEXT_MARKER], h.kept);
    SumOne(CONTEXT_MARKER);
    EmptyJoin();
  }

  /**
   * When the instruction layers fit within their thirds, a history that passes the check yields a
   * prompt: every layer, then perhaps the truncation marker, then a suffix of the turns that
   * contains the whole current turn.
   */
  lemma CurrentTurnIsNeverTrimmed(segments: seq<Segment>, maxCharacters: nat, maxTokens: nat, cut: Cut) returns (k: nat, marked: bool)
    requires forall i :: 0 <= i < |segments| ==> Rendered(segments[i].value)
    requires LayersFit(segments, maxCharacters, maxTokens) && CurrentTurnFits(segments, maxCharacters, maxTokens)
    ensures k <= |Turns(segments)| - |Active(segments)| && (marked ==> k > 0)
    ensures Turns(segments)[|Turns(segments)| - |Active(segments)|..] == Active(segments)
    ensures var result := Join(Parts(Instructions(segments), marked, Turns(segments)[k..]));
            BoundPrompt(segments, maxCharacters, maxTokens, cut) == Some(result)
            && |result| <= maxCharacters && Estimate(result) <= maxTokens
  {
    hide Estimate, Join, SumTokens, Turns, Instructions, ActiveStart, CurrentTurnFits, KeepTurns, KeepLayers, Marked;
    var layers, active := Instructions(segments), Active(segments);
    var older := Turns(segments[..ActiveStart(segments)]);
    var instruction := Join(layers);
    var cb := maxCharacters - |instruction| - if instruction != [] then 2 else 0;
    var tb := maxTokens - Estimate(instruction);
    ListsRendered(segments);
    TurnsSplit(segments, ActiveStart(segments));
    ActiveFitsBudgets(segments, maxCharacters, maxTokens);
    EmptyJoin();
    NonEmptyJoin(layers);
    JoinIsFree(layers);
    assert layers + [] == layers && active + [] == active;
    AllLayersKept(layers, [], maxCharacters / 3, maxTokens / 3, cut);
    FittingTurnsKept(older, active, [], cb, tb);
    k := KeptIsSuffix(older, active, cb, tb);
    var h := KeepTurns(older, active, |Join(active)|, SumTokens(active), cb, tb);
    marked := MarkedFits(h, cb, tb);
    assert h.kept == Turns(segments)[k..];
    AssembledFits(layers, Marked(h, cb, tb), maxCharacters, maxTokens);
  }
}
