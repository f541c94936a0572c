/**
 The legacy tool-calling loop of agent_loop.rs and the failure counter beside it. The model
 and the tools are parameters: they may answer anything.
 */
module ToolLoop {
  import opened Text
  import opened Sequences

  datatype ToolCall = ToolCall(id: string, name: string, arguments: string)

  datatype Message = Message(role: string, content: Option<string>, toolCalls: Option<seq<ToolCall>>, toolCallId: Option<string>)

  datatype Tool = Tool(name: string, definition: string)

  datatype Reply = Answer(message: Message) | ModelError

  /** The outcome of one tool execution; only the discovery tool brings new tools. */
  datatype ToolOutcome = ToolOutcome(content: string, discovered: seq<Tool>)

  const DISCOVER_TOOLS := "discover_tools"

  /** The model's answer, given how many rounds there were, the messages and the tools offered. */
  type Model = (nat, seq<Message>, Option<seq<Tool>>) -> Reply

  /** A tool's outcome, given the round and the position of the call in it. */
  type Executor = (nat, nat, ToolCall) -> ToolOutcome

  datatype Ending = Final(text: string) | Failed

  datatype Turn = Turn(ending: Ending, messages: seq<Message>, active: seq<Tool>, rounds: nat, offers: seq<Option<seq<Tool>>>)

  function ToolResult(id: string, content: string): Message { Message("tool", Some(content), None, Some(id)) }

  // ---- the active tool set ----

  predicate Named(tools: seq<Tool>, name: string) { exists i :: 0 <= i < |tools| && tools[i].name == name }

  /** Adds the discovered tools whose names are new, one after another. */
  function Inject(active: seq<Tool>, discovered: seq<Tool>): seq<Tool>
    decreases discovered
  {
    if discovered == [] then active
    else Inject(if Named(active, discovered[0].name) then active else active + [discovered[0]], discovered[1..])
  }

  /** `later` keeps `earlier` in front and adds only tools with names of their own. */
  ghost predicate Extends(earlier: seq<Tool>, later: seq<Tool>) {
    && earlier <= later
    && forall i, j :: |earlier| <= i < |later| && 0 <= j < i ==> later[i].name != later[j].name
  }

  lemma ExtendsTransitive(a: seq<Tool>, b: seq<Tool>, c: seq<Tool>)
    requires Extends(a, b) && Extends(b, c)
    ensures Extends(a, c)
  {
    forall i, j | |a| <= i < |c| && 0 <= j < i ensures c[i].name != c[j].name {
      if i < |b| { assert b[i] == c[i] && b[j] == c[j]; }
    }
  }

  /** Injection only grows the set, adds no second tool of a name, and leaves no discovered name out. */
  lemma {:induction false} InjectExtends(active: seq<Tool>, discovered: seq<Tool>)
    ensures Extends(active, Inject(active, discovered))
    ensures forall i :: 0 <= i < |discovered| ==> Named(Inject(active, discovered), discovered[i].name)
    decreases discovered
  {
    if discovered != [] {
      var d := discovered[0];
      var next := if Named(active, d.name) then active else active + [d];
      var all := Inject(active, discovered);
      InjectExtends(next, discovered[1..]);
      assert Extends(active, next);
      ExtendsTransitive(active, next, all);
      NamedInNext(active, next, d);
      NamedStays(next, all, d.name);
      forall i | 0 <= i < |discovered| ensures Named(all, discovered[i].name) {
        if i > 0 { assert discovered[i] == discovered[1..][i - 1]; }
      }
    }
  }

  /** `t` is the first of the discovered tools with its name. */
  predicate FirstNamed(discovered: seq<Tool>, t: Tool) {
    exists j :: 0 <= j < |discovered| && discovered[j] == t && forall i :: 0 <= i < j ==> discovered[i].name != t.name
  }

  /** What is added is, tool for tool, the first discovered one of its name. */
  lemma {:induction false} InjectTakesFirst(active: seq<Tool>, discovered: seq<Tool>)
    ensures active <= Inject(active, discovered)
    ensures forall i :: |active| <= i < |Inject(active, discovered)| ==> FirstNamed(discovered, Inject(active, discovered)[i])
    decreases discovered
  {
    if discovered != [] {
      var d, tail := discovered[0], discovered[1..];
      var next := if Named(active, d.name) then active else active + [d];
      var all := Inject(active, discovered);
      InjectTakesFirst(next, tail);
      InjectExtends(next, tail);
      NamedInNext(active, next, d);
      hide Inject, Extends, Named;
      forall i | |active| <= i < |all| ensures FirstNamed(discovered, all[i]) {
        if i < |next| {
          assert all[i] == d && discovered[0] == d;
        } else {
          var j :| 0 <= j < |tail| && tail[j] == all[i] && forall k :: 0 <= k < j ==> tail[k].name != all[i].name;
          NotNamed(next, all, d.name, i);
          assert discovered[j + 1] == all[i];
          assert forall k :: 0 < k < j + 1 ==> discovered[k] == tail[k - 1];
        }
      }
    }
  }

  lemma NotNamed(a: seq<Tool>, b: seq<Tool>, name: string, i: nat)
    requires Extends(a, b) && Named(a, name) && |a| <= i < |b|
    ensures b[i].name != name
  {
    var k :| 0 <= k < |a| && a[k].name == name;
    assert b[k] == a[k];
  }

  lemma NamedInNext(active: seq<Tool>, next: seq<Tool>, d: Tool)
    requires next == if Named(active, d.name) then active else active + [d]
    ensures Named(next, d.name)
  {
    if !Named(active, d.name) { assert next[|active|] == d; }
  }

  lemma NamedStays(a: seq<Tool>, b: seq<Tool>, name: string)
    requires a <= b && Named(a, name)
    ensures Named(b, name)
  {
    var i :| 0 <= i < |a| && a[i].name == name;
    assert b[i] == a[i];
  }

  // ---- one round ----

  function Discovered(call: ToolCall, outcome: ToolOutcome): seq<Tool> {
    if call.name == DISCOVER_TOOLS then outcome.discovered else []
  }

  function Results(exec: Executor, round: nat, calls: seq<ToolCall>, j: nat): seq<Message>
    requires j <= |calls|
    decreases |calls| - j
  {
    if j == |calls| then []
    else [ToolResult(calls[j].id, exec(round, j, calls[j]).content)] + Results(exec, round, calls, j + 1)
  }

  function ActiveAfter(exec: Executor, round: nat, calls: seq<ToolCall>, j: nat, active: seq<Tool>): seq<Tool>
    requires j <= |calls|
    decreases |calls| - j
  {
    if j == |calls| then active
    else ActiveAfter(exec, round, calls, j + 1, Inject(active, Discovered(calls[j], exec(round, j, calls[j]))))
  }

  lemma {:induction false} ActiveExtends(exec: Executor, round: nat, calls: seq<ToolCall>, j: nat, active: seq<Tool>)
    requires j <= |calls|
    ensures Extends(active, ActiveAfter(exec, round, calls, j, active))
    decreases |calls| - j
  {
    hide Inject;
    if j < |calls| {
      var found := Discovered(calls[j], exec(round, j, calls[j]));
      InjectExtends(active, found);
      ActiveExtends(exec, round, calls, j + 1, Inject(active, found));
      ExtendsTransitive(active, Inject(active, found), ActiveAfter(exec, round, calls, j, active));
    }
  }

  /** What a discovery call finds can be called from the next round on. */
  lemma {:induction false} DiscoveredBecomeActive(
    exec: Executor, round: nat, calls: seq<ToolCall>, j: nat, active: seq<Tool>, k: nat, i: nat)
    requires j <= k < |calls| && calls[k].name == DISCOVER_TOOLS && i < |exec(round, k, calls[k]).discovered|
    ensures Named(ActiveAfter(exec, round, calls, j, active), exec(round, k, calls[k]).discovered[i].name)
    decreases |calls| - j
  {
    hide Inject, Named;
    var found := Discovered(calls[j], exec(round, j, calls[j]));
    if j == k {
      InjectExtends(active, found);
      ActiveExtends(exec, round, calls, j + 1, Inject(active, found));
      NamedStays(Inject(active, found), ActiveAfter(exec, round, calls, j, active), found[i].name);
    } else {
      DiscoveredBecomeActive(exec, round, calls, j + 1, Inject(active, found), k, i);
    }
  }

  // ---- the loop ----

  /** The rest of the loop after `made` rounds. */
  function Rest(model: Model, exec: Executor, maxCalls: nat, made: nat, messages: seq<Message>, active: seq<Tool>): Turn
    requires made <= maxCalls
    decreases maxCalls - made
  {
    var tools := if made >= maxCalls then None else Some(active);
    match model(made, messages, tools)
    case ModelError => Turn(Failed, messages, active, made, [tools])
    case Answer(m) =>
      if WantsTools(m) && made < maxCalls then
        var calls := m.toolCalls.value;
        var rest := Rest(model, exec, maxCalls, made + 1, messages + [m] + Results(exec, made, calls, 0),
                         ActiveAfter(exec, made, calls, 0, active));
        rest.(offers := [tools] + rest.offers)
      else Turn(Final(GetOr(m.content, "")), messages, active, made, [tools])
  }

  predicate WantsTools(m: Message) { m.toolCalls.Some? && m.toolCalls.value != [] }

  /** The loop inside `process_turn_with_session`, from the first model call to the final answer. */
  method RunLoop(model: Model, exec: Executor, maxCalls: nat, initial: seq<Message>, alwaysOn: seq<Tool>)
    returns (turn: Turn)
    ensures turn == Rest(model, exec, maxCalls, 0, initial, alwaysOn)
  {
    hide Rest, Results, ActiveAfter;
    var messages, active, made := initial, alwaysOn, 0;
    var offers := [];
    while true
      invariant 0 <= made <= maxCalls
      invariant After(offers, Rest(model, exec, maxCalls, made, messages, active))
                == Rest(model, exec, maxCalls, 0, initial, alwaysOn)
      decreases maxCalls - made
    {
      RestStep(model, exec, maxCalls, made, messages, active, offers);
      var tools := if made >= maxCalls then None else Some(active);
      offers := offers + [tools];
      var reply := model(made, messages, tools);
      if reply.ModelError? {
        return Turn(Failed, messages, active, made, offers);
      }
      var m := reply.message;
      if m.toolCalls.Some? {
        var calls := m.toolCalls.value;
        if calls != [] && made < maxCalls {
          messages := messages + [m];
          messages, active := RunCalls(exec, made, calls, messages, active);
          made := made + 1;
          continue;
        }
      }
      return Turn(Final(GetOr(m.content, "")), messages, active, made, offers);
    }
  }

  /** A turn with the offers made before it. */
  function After(offers: seq<Option<seq<Tool>>>, rest: Turn): Turn { rest.(offers := offers + rest.offers) }

  lemma RestStep(model: Model, exec: Executor, maxCalls: nat, made: nat, messages: seq<Message>, active: seq<Tool>,
                 before: seq<Option<seq<Tool>>>)
    requires made <= maxCalls
    ensures var tools := if made >= maxCalls then None else Some(active);
            var offers := before + [tools];
            var now := After(before, Rest(model, exec, maxCalls, made, messages, active));
            match model(made, messages, tools)
            case ModelError => now == Turn(Failed, messages, active, made, offers)
            case Answer(m) =>
              if WantsTools(m) && made < maxCalls then
                var calls := m.toolCalls.value;
                now == After(offers, Rest(model, exec, maxCalls, made + 1, messages + [m] + Results(exec, made, calls, 0),
                                          ActiveAfter(exec, made, calls, 0, active)))
              else now == Turn(Final(GetOr(m.content, "")), messages, active, made, offers)
  {
    hide Results, ActiveAfter;
    var tools := if made >= maxCalls then None else Some(active);
    var reply := model(made, messages, tools);
    if reply.Answer? && WantsTools(reply.message) && made < maxCalls {
      var calls := reply.message.toolCalls.value;
      var rest := Rest(model, exec, maxCalls, made + 1, messages + [reply.message] + Results(exec, made, calls, 0),
                       ActiveAfter(exec, made, calls, 0, active));
      assert before + ([tools] + rest.offers) == before + [tools] + rest.offers;
    }
  }

  /** Executes the calls in order; each appends its result, and discovery grows the tool set. */
  method RunCalls(exec: Executor, round: nat, calls: seq<ToolCall>, messages: seq<Message>, active: seq<Tool>)
    returns (messages': seq<Message>, active': seq<Tool>)
    ensures messages' == messages + Results(exec, round, calls, 0)
    ensures active' == ActiveAfter(exec, round, calls, 0, active)
  {
    hide Inject;
    messages', active' := messages, active;
    for j := 0 to |calls|
      invariant messages' + Results(exec, round, calls, j) == messages + Results(exec, round, calls, 0)
      invariant ActiveAfter(exec, round, calls, j, active') == ActiveAfter(exec, round, calls, 0, active)
    {
      var outcome := exec(round, j, calls[j]);
      if calls[j].name == DISCOVER_TOOLS {
        active' := InjectAll(active', outcome.discovered);
      } else {
        NothingInjected(active');
      }
      messages' := messages' + [ToolResult(calls[j].id, outcome.content)];
    }
  }

  lemma NothingInjected(active: seq<Tool>)
    ensures Inject(active, []) == active
  {
  }

  method InjectAll(active: seq<Tool>, discovered: seq<Tool>) returns (active': seq<Tool>)
    ensures active' == Inject(active, discovered)
  {
    active' := active;
    for i := 0 to |discovered|
      invariant Inject(active', discovered[i..]) == Inject(active, discovered)
    {
      assert discovered[i..][1..] == discovered[i + 1..];
      if !Named(active', discovered[i].name) {
        active' := active' + [discovered[i]];
      }
    }
  }

  // ---- main results ----

  /** One assistant message with tool calls, directly followed by one result per call, ids in order. */
  ghost predicate RoundShape(r: seq<Message>) {
    && r != [] && WantsTools(r[0])
    && |r| == 1 + |r[0].toolCalls.value|
    && forall i :: 0 <= i < |r| - 1 ==>
         r[i + 1].role == "tool" && r[i + 1].toolCallId == Some(r[0].toolCalls.value[i].id) && r[i + 1].toolCalls.None?
  }

  lemma {:induction false} ResultsMatchCalls(exec: Executor, round: nat, calls: seq<ToolCall>, j: nat)
    requires j <= |calls|
    ensures var rs := Results(exec, round, calls, j);
            && |rs| == |calls| - j
            && forall i :: 0 <= i < |rs| ==>
                 && rs[i].role == "tool" && rs[i].toolCallId == Some(calls[j + i].id) && rs[i].toolCalls.None?
                 && rs[i].content == Some(exec(round, j + i, calls[j + i]).content)
    decreases |calls| - j
  {
    if j < |calls| { ResultsMatchCalls(exec, round, calls, j + 1); }
  }

  lemma RoundShapeOf(exec: Executor, n: nat, m: Message)
    requires WantsTools(m)
    ensures RoundShape([m] + Results(exec, n, m.toolCalls.value, 0))
  {
    ResultsMatchCalls(exec, n, m.toolCalls.value, 0);
    hide Results;
  }

  /**
   For any model and any tools: the messages grow by well-formed rounds, as many as counted
   and at most `maxCalls`, and there was exactly one model call more than rounds.
   */
  lemma {:induction false} LoopTranscript(
    model: Model, exec: Executor, maxCalls: nat, made: nat, messages: seq<Message>, active: seq<Tool>)
    returns (rounds: seq<seq<Message>>)
    requires made <= maxCalls
    ensures var t := Rest(model, exec, maxCalls, made, messages, active);
            && t.messages == messages + Flatten(rounds)
            && (forall k :: 0 <= k < |rounds| ==> RoundShape(rounds[k]))
            && |rounds| == t.rounds - made && t.rounds <= maxCalls
            && |t.offers| == |rounds| + 1
    decreases maxCalls - made
  {
    hide Results, ActiveAfter, RoundShape;
    var tools := if made >= maxCalls then None else Some(active);
    rounds := [];
    match model(made, messages, tools)
    case ModelError => assert messages + Flatten(rounds) == messages;
    case Answer(m) =>
      if WantsTools(m) && made < maxCalls {
        var calls := m.toolCalls.value;
        var round := [m] + Results(exec, made, calls, 0);
        RoundShapeOf(exec, made, m);
        assert messages + [m] + Results(exec, made, calls, 0) == messages + round;
        var rest := LoopTranscript(model, exec, maxCalls, made + 1, messages + round, ActiveAfter(exec, made, calls, 0, active));
        rounds := [round] + rest;
        assert rounds[1..] == rest;
        assert messages + (round + Flatten(rest)) == messages + round + Flatten(rest);
      } else {
        assert messages + Flatten(rounds) == messages;
      }
  }

  /** The messages of round `n` after `before`: the model's answer to exactly these, and its calls' results. */
  ghost predicate Asked(
    model: Model, exec: Executor, n: nat, before: seq<Message>, offer: Option<seq<Tool>>, round: seq<Message>)
  {
    && round != [] && WantsTools(round[0]) && model(n, before, offer) == Answer(round[0])
    && round == [round[0]] + Results(exec, n, round[0].toolCalls.value, 0)
  }

  ghost predicate AllAsked(
    model: Model, exec: Executor, made: nat, messages: seq<Message>, offers: seq<Option<seq<Tool>>>, rounds: seq<seq<Message>>)
  {
    |rounds| <= |offers|
    && forall k :: 0 <= k < |rounds| ==>
         Asked(model, exec, made + k, messages + Flatten(rounds[..k]), offers[k], rounds[k])
  }

  /** How a reply ends the loop: an error, or an answer without calls or beyond the budget. */
  ghost predicate EndsWith(reply: Reply, spent: bool, ending: Ending) {
    match reply
    case ModelError => ending == Failed
    case Answer(m) => (WantsTools(m) ==> spent) && ending == Final(GetOr(m.content, ""))
  }

  /**
   The whole turn, said without recursion: in every round the model sees the initial messages
   and all rounds before it, and nothing else; the turn ends with the first reply that asks for
   no tools, comes after the budget, or is an error.
   */
  lemma {:induction false} LoopIs(
    model: Model, exec: Executor, maxCalls: nat, made: nat, messages: seq<Message>, active: seq<Tool>)
    returns (rounds: seq<seq<Message>>)
    requires made <= maxCalls
    ensures var t := Rest(model, exec, maxCalls, made, messages, active);
            && AllAsked(model, exec, made, messages, t.offers, rounds)
            && t.messages == messages + Flatten(rounds) && t.rounds == made + |rounds| && |t.offers| == |rounds| + 1
            && EndsWith(model(t.rounds, t.messages, t.offers[|rounds|]), t.rounds >= maxCalls, t.ending)
    decreases maxCalls - made
  {
    hide Results, ActiveAfter, Asked;
    var tools := if made >= maxCalls then None else Some(active);
    rounds := [];
    assert messages + Flatten(rounds) == messages;
    var reply := model(made, messages, tools);
    if reply.Answer? && WantsTools(reply.message) && made < maxCalls {
      var m := reply.message;
      var calls := m.toolCalls.value;
      var round := [m] + Results(exec, made, calls, 0);
      assert messages + [m] + Results(exec, made, calls, 0) == messages + round;
      var next := ActiveAfter(exec, made, calls, 0, active);
      var rest := LoopIs(model, exec, maxCalls, made + 1, messages + round, next);
      var later := Rest(model, exec, maxCalls, made + 1, messages + round, next);
      rounds := [round] + rest;
      assert rounds[1..] == rest;
      assert messages + (round + Flatten(rest)) == messages + round + Flatten(rest);
      FirstAsked(model, exec, made, messages, tools, m);
      AskedFirst(model, exec, made, messages, tools, later.offers, round, rest);
    }
  }

  lemma FirstAsked(model: Model, exec: Executor, n: nat, before: seq<Message>, offer: Option<seq<Tool>>, m: Message)
    requires model(n, before, offer) == Answer(m) && WantsTools(m)
    ensures Asked(model, exec, n, before, offer, [m] + Results(exec, n, m.toolCalls.value, 0))
  {
  }

  lemma AskedFirst(
    model: Model, exec: Executor, made: nat, messages: seq<Message>, offer: Option<seq<Tool>>, offers: seq<Option<seq<Tool>>>,
    round: seq<Message>, rest: seq<seq<Message>>)
    requires Asked(model, exec, made, messages, offer, round)
    requires AllAsked(model, exec, made + 1, messages + round, offers, rest)
    ensures AllAsked(model, exec, made, messages, [offer] + offers, [round] + rest)
  {
    hide Asked;
    var rounds := [round] + rest;
    forall k | 0 <= k < |rounds|
      ensures Asked(model, exec, made + k, messages + Flatten(rounds[..k]), ([offer] + offers)[k], rounds[k])
    {
      if k == 0 {
        assert messages + Flatten(rounds[..0]) == messages;
      } else {
        assert rounds[..k][1..] == rest[..k - 1] && rounds[..k][0] == round;
        assert messages + (round + Flatten(rest[..k - 1])) == messages + round + Flatten(rest[..k - 1]);
        assert Asked(model, exec, made + 1 + (k - 1), messages + round + Flatten(rest[..k - 1]), offers[k - 1], rest[k - 1]);
      }
    }
  }

  /**
   The model is offered no tools exactly in the call after the last round of the budget; from
   call to call the offer keeps all tools and gains only tools with names of their own.
   */
  lemma {:induction false} OffersGrow(
    model: Model, exec: Executor, maxCalls: nat, made: nat, messages: seq<Message>, active: seq<Tool>)
    requires made <= maxCalls
    ensures var t := Rest(model, exec, maxCalls, made, messages, active);
            && Extends(active, t.active)
            && (forall k :: 0 <= k < |t.offers| ==> (t.offers[k].None? <==> made + k == maxCalls))
            && (forall k :: 0 <= k < |t.offers| && t.offers[k].Some? ==> Extends(active, t.offers[k].value))
            && (forall k, l :: 0 <= k < l < |t.offers| && t.offers[k].Some? && t.offers[l].Some? ==>
                  Extends(t.offers[k].value, t.offers[l].value))
    decreases maxCalls - made
  {
    hide Results, ActiveAfter, Extends;
    var tools := if made >= maxCalls then None else Some(active);
    ExtendsItself(active);
    match model(made, messages, tools)
    case ModelError =>
    case Answer(m) =>
      if WantsTools(m) && made < maxCalls {
        var calls := m.toolCalls.value;
        var next := ActiveAfter(exec, made, calls, 0, active);
        var after := messages + [m] + Results(exec, made, calls, 0);
        ActiveExtends(exec, made, calls, 0, active);
        OffersGrow(model, exec, maxCalls, made + 1, after, next);
        var rest := Rest(model, exec, maxCalls, made + 1, after, next);
        ExtendsTransitive(active, next, rest.active);
        forall k | 0 <= k < |rest.offers| && rest.offers[k].Some? ensures Extends(active, rest.offers[k].value) {
          ExtendsTransitive(active, next, rest.offers[k].value);
        }
        var offers := [tools] + rest.offers;
        forall k | 0 <= k < |offers| ensures offers[k] == if k == 0 then tools else rest.offers[k - 1] {}
      }
  }

  /** `t` was found by one of the discovery calls of round `n`. */
  ghost predicate FoundIn(exec: Executor, n: nat, calls: seq<ToolCall>, t: Tool) {
    exists j, i :: 0 <= j < |calls| && calls[j].name == DISCOVER_TOOLS
      && 0 <= i < |exec(n, j, calls[j]).discovered| && exec(n, j, calls[j]).discovered[i] == t
  }

  /** The tools after a round: those before it, then finds of the round with names of their own, none of whose names is missing. */
  ghost predicate GrownByRound(exec: Executor, n: nat, calls: seq<ToolCall>, before: seq<Tool>, after: seq<Tool>) {
    && Extends(before, after)
    && (forall i :: |before| <= i < |after| ==> FoundIn(exec, n, calls, after[i]))
    && forall t :: FoundIn(exec, n, calls, t) ==> Named(after, t.name)
  }

  lemma {:induction false} AddedAreFound(exec: Executor, n: nat, calls: seq<ToolCall>, j: nat, active: seq<Tool>)
    requires j <= |calls|
    ensures var after := ActiveAfter(exec, n, calls, j, active);
            active <= after && forall i :: |active| <= i < |after| ==> FoundIn(exec, n, calls, after[i])
    decreases |calls| - j
  {
    hide Inject, FirstNamed;
    if j < |calls| {
      var found := Discovered(calls[j], exec(n, j, calls[j]));
      var next := Inject(active, found);
      var after := ActiveAfter(exec, n, calls, j, active);
      InjectTakesFirst(active, found);
      AddedAreFound(exec, n, calls, j + 1, next);
      forall i | |active| <= i < |after| ensures FoundIn(exec, n, calls, after[i]) {
        if i < |next| {
          assert after[i] == next[i];
          FirstIsIn(found, next[i]);
          var k :| 0 <= k < |found| && found[k] == next[i];
          assert exec(n, j, calls[j]).discovered[k] == after[i];
        }
      }
    }
  }

  lemma FirstIsIn(discovered: seq<Tool>, t: Tool)
    requires FirstNamed(discovered, t)
    ensures exists j :: 0 <= j < |discovered| && discovered[j] == t
  {
  }

  lemma RoundGrows(exec: Executor, n: nat, calls: seq<ToolCall>, active: seq<Tool>)
    ensures GrownByRound(exec, n, calls, active, ActiveAfter(exec, n, calls, 0, active))
  {
    hide ActiveAfter, Named, Extends;
    ActiveExtends(exec, n, calls, 0, active);
    AddedAreFound(exec, n, calls, 0, active);
    forall t | FoundIn(exec, n, calls, t) ensures Named(ActiveAfter(exec, n, calls, 0, active), t.name) {
      var j, i :| 0 <= j < |calls| && calls[j].name == DISCOVER_TOOLS
        && 0 <= i < |exec(n, j, calls[j]).discovered| && exec(n, j, calls[j]).discovered[i] == t;
      DiscoveredBecomeActive(exec, n, calls, 0, active, j, i);
    }
  }

  /** The tool set from round to round, and the offers made of it. */
  ghost predicate ToolsOfTurn(
    exec: Executor, maxCalls: nat, made: nat, active: seq<Tool>, t: Turn, rounds: seq<seq<Message>>, sets: seq<seq<Tool>>)
  {
    && |sets| == |rounds| + 1 == |t.offers| && sets[0] == active && sets[|rounds|] == t.active
    && (forall k :: 0 <= k < |sets| ==> t.offers[k] == if made + k >= maxCalls then None else Some(sets[k]))
    && forall k :: 0 <= k < |rounds| ==>
         rounds[k] != [] && rounds[k][0].toolCalls.Some?
         && GrownByRound(exec, made + k, rounds[k][0].toolCalls.value, sets[k], sets[k + 1])
  }

  /** Every call of the model is offered the always-on tools and what the rounds before it have found, and nothing else. */
  lemma {:induction false} OffersFollowRounds(
    model: Model, exec: Executor, maxCalls: nat, made: nat, messages: seq<Message>, active: seq<Tool>)
    returns (rounds: seq<seq<Message>>, sets: seq<seq<Tool>>)
    requires made <= maxCalls
    ensures var t := Rest(model, exec, maxCalls, made, messages, active);
            t.messages == messages + Flatten(rounds) && ToolsOfTurn(exec, maxCalls, made, active, t, rounds, sets)
            && forall k :: 0 <= k < |rounds| ==> RoundShape(rounds[k])
    decreases maxCalls - made
  {
    hide Results, ActiveAfter, GrownByRound;
    var tools := if made >= maxCalls then None else Some(active);
    var reply := model(made, messages, tools);
    rounds, sets := [], [active];
    assert messages + Flatten(rounds) == messages;
    if reply.Answer? && WantsTools(reply.message) && made < maxCalls {
      var m := reply.message;
      var calls := m.toolCalls.value;
      var round := [m] + Results(exec, made, calls, 0);
      assert messages + [m] + Results(exec, made, calls, 0) == messages + round;
      var next := ActiveAfter(exec, made, calls, 0, active);
      RoundGrows(exec, made, calls, active);
      ResultsMatchCalls(exec, made, calls, 0);
      var laterRounds, laterSets := OffersFollowRounds(model, exec, maxCalls, made + 1, messages + round, next);
      var later := Rest(model, exec, maxCalls, made + 1, messages + round, next);
      rounds, sets := [round] + laterRounds, [active] + laterSets;
      assert rounds[1..] == laterRounds;
      assert messages + (round + Flatten(laterRounds)) == messages + round + Flatten(laterRounds);
      FirstRound(exec, maxCalls, made, active, tools, later, round, laterRounds, laterSets);
    }
  }

  lemma FirstRound(
    exec: Executor, maxCalls: nat, made: nat, active: seq<Tool>, tools: Option<seq<Tool>>, later: Turn, round: seq<Message>,
    rounds: seq<seq<Message>>, sets: seq<seq<Tool>>)
    requires sets != [] && ToolsOfTurn(exec, maxCalls, made + 1, sets[0], later, rounds, sets)
    requires tools == if made >= maxCalls then None else Some(active)
    requires round != [] && round[0].toolCalls.Some?
    requires GrownByRound(exec, made, round[0].toolCalls.value, active, sets[0])
    ensures ToolsOfTurn(exec, maxCalls, made, active, later.(offers := [tools] + later.offers), [round] + rounds, [active] + sets)
  {
    hide GrownByRound;
    var allRounds: seq<seq<Message>> := [round] + rounds;
    var allSets, offers := [active] + sets, [tools] + later.offers;
    forall k | 0 <= k < |allRounds|
      ensures allRounds[k] != [] && allRounds[k][0].toolCalls.Some?
              && GrownByRound(exec, made + k, allRounds[k][0].toolCalls.value, allSets[k], allSets[k + 1])
    {
      if k > 0 {
        assert GrownByRound(exec, made + 1 + (k - 1), rounds[k - 1][0].toolCalls.value, sets[k - 1], sets[k]);
      }
    }
  }

  lemma ExtendsItself(a: seq<Tool>)
    ensures Extends(a, a)
  {
  }

  /** At most `maxCalls + 1` model calls; whoever spends the budget gets a last call without tools. */
  lemma ModelCallsBounded(model: Model, exec: Executor, maxCalls: nat, initial: seq<Message>, alwaysOn: seq<Tool>)
    ensures var t := Rest(model, exec, maxCalls, 0, initial, alwaysOn);
            && 1 <= |t.offers| <= maxCalls + 1 && initial <= t.messages
            && (|t.offers| == maxCalls + 1 <==> t.offers[|t.offers| - 1].None?)
  {
    hide Rest;
    var rounds := LoopTranscript(model, exec, maxCalls, 0, initial, alwaysOn);
    OffersGrow(model, exec, maxCalls, 0, initial, alwaysOn);
  }

  // ---- the consecutive-failure counter ----

  /** Results of model calls, as the counter sees them: the agentic path does not reset it. */
  datatype CallResult = LegacyOk | AgenticOk | CallFailed

  const FAIL_THRESHOLD := 3

  class FailureCounter {
    var count: nat

    constructor ()
      ensures count == 0
    {
      count := 0;
    }

    /** Counts one result; `open` is the circuit-open event. */
    method Record(r: CallResult) returns (open: bool)
      modifies this
      ensures (count, open) == Counted(old(count), r)
    {
      open := false;
      match r
      case LegacyOk => count := 0;
      case AgenticOk =>
      case CallFailed =>
        var failures := count + 1;
        count := failures;
        if failures >= FAIL_THRESHOLD {
          open := true;
          count := 0;
        }
    }
  }

  function Counted(count: nat, r: CallResult): (nat, bool) {
    match r
    case LegacyOk => (0, false)
    case AgenticOk => (count, false)
    case CallFailed => if count + 1 >= FAIL_THRESHOLD then (0, true) else (count + 1, false)
  }

  /** The counter after a history of results. */
  function CountAfter(history: seq<CallResult>): nat {
    if history == [] then 0 else Counted(CountAfter(history[..|history| - 1]), history[|history| - 1]).0
  }

  /** Failures since the last success of the legacy path. */
  function FailuresSinceOk(history: seq<CallResult>): nat {
    if history == [] || history[|history| - 1] == LegacyOk then 0
    else FailuresSinceOk(history[..|history| - 1]) + (if history[|history| - 1] == CallFailed then 1 else 0)
  }

  /** The circuit opens at every third failure since the last legacy success, whatever else came between. */
  lemma {:induction false} OpensAtEveryThird(history: seq<CallResult>)
    ensures CountAfter(history) == FailuresSinceOk(history) % 3
    ensures Counted(CountAfter(history), CallFailed).1 <==> FailuresSinceOk(history) % 3 == 2
  {
    if history != [] { OpensAtEveryThird(history[..|history| - 1]); }
  }

  /** Failures at the end of a history with nothing between them: what the comment says is counted. */
  function InARow(history: seq<CallResult>): nat {
    if history == [] || history[|history| - 1] != CallFailed then 0 else InARow(history[..|history| - 1]) + 1
  }

  lemma {:induction false} InARowAtMost(history: seq<CallResult>)
    ensures InARow(history) <= FailuresSinceOk(history)
  {
    if history != [] { InARowAtMost(history[..|history| - 1]); }
  }

  /**
   The counter is the number of consecutive failures, counted in threes as documented, if and
   only if the failures before the last row of them, back to the last resetting success, come
   in threes.
   */
  lemma CountsARowIff(history: seq<CallResult>)
    ensures CountAfter(history) == InARow(history) % 3
            <==> (FailuresSinceOk(history) - InARow(history)) % 3 == 0
  {
    OpensAtEveryThird(history);
    InARowAtMost(history);
  }

  /** An opening comes after three failures in a row if and only if no agentic success is among the two results before it. */
  lemma ThreeInARow(history: seq<CallResult>)
    requires Counted(CountAfter(history), CallFailed).1
    ensures |history| >= 2
    ensures history[|history| - 1] == history[|history| - 2] == CallFailed <==> AgenticOk !in history[|history| - 2..]
  {
    hide *;
    OpeningAfterTwo(history);
    FailuresStep(history);
    FailuresStep(history[..|history| - 1]);
    LastTwo(history);
  }

  lemma OpeningAfterTwo(history: seq<CallResult>)
    requires Counted(CountAfter(history), CallFailed).1
    ensures FailuresSinceOk(history) >= 2 && |history| >= 2
  {
    OpensAtEveryThird(history);
    hide CountAfter, Counted;
    assert FailuresSinceOk(history) % 3 == 2;
  }

  lemma LastTwo(history: seq<CallResult>)
    requires |history| >= 2
    ensures var n := |history|;
            && (AgenticOk !in history[n - 2..] <==> history[n - 2] != AgenticOk && history[n - 1] != AgenticOk)
            && |history[..n - 1]| == n - 1 && history[..n - 1][n - 2] == history[n - 2]
  {
    assert history[|history| - 2..] == [history[|history| - 2], history[|history| - 1]];
  }

  lemma FailuresStep(h: seq<CallResult>)
    ensures h == [] || h[|h| - 1] == LegacyOk ==> FailuresSinceOk(h) == 0
    ensures h != [] && h[|h| - 1] != LegacyOk ==>
              FailuresSinceOk(h) == FailuresSinceOk(h[..|h| - 1]) + if h[|h| - 1] == CallFailed then 1 else 0
  {
  }

  /** Such openings exist: here every other result is a success. */
  lemma OpensDespiteSuccesses()
    ensures var history := [CallFailed, AgenticOk, CallFailed, AgenticOk]; Counted(CountAfter(history), CallFailed).1
  {
    assert FailuresSinceOk([]) == 0;
    hide FailuresSinceOk, CountAfter;
    var h1 := [] + [CallFailed];
    var h2 := h1 + [AgenticOk];
    var h3 := h2 + [CallFailed];
    var h4 := h3 + [AgenticOk];
    FailuresAfter([], CallFailed);
    FailuresAfter(h1, AgenticOk);
    FailuresAfter(h2, CallFailed);
    FailuresAfter(h3, AgenticOk);
    assert h4 == [CallFailed, AgenticOk, CallFailed, AgenticOk];
    OpensAtEveryThird(h4);
  }

  lemma FailuresAfter(h: seq<CallResult>, r: CallResult)
    requires r != LegacyOk
    ensures FailuresSinceOk(h + [r]) == FailuresSinceOk(h) + (if r == CallFailed then 1 else 0)
  {
    assert (h + [r])[..|h|] == h;
  }
}
