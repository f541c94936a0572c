/**
 The three-layer model router and the swap/restore bracket around deep calls (router.rs). The
 keyword rules and the model's answers are parameters.
 */
module Router {
  import opened Text

  datatype RouteDecision = RouteDecision(model: string, cleanedInput: string, layer: string, layer3Disabled: bool)

  datatype RouterResult = RouterResult(modelUsed: string, escalated: bool, decisionLayer: string, response: string)

  /** `lifecycle` says whether a lifecycle client is configured. */
  datatype ModelRouter = ModelRouter(fastModel: string, deepModel: string, escalationThreshold: nat, lifecycle: bool)

  /** The keyword tables of router_rules.rs and the lower-case mapping. */
  datatype Rules = Rules(
    lower: string -> string, naturalDeep: string -> bool, naturalFast: string -> bool, needsDeep: (string, nat) -> bool,
    uncertain: string -> bool)

  datatype ChatMessage = ChatMessage(role: string, content: string)

  /** The answer of the `n`-th model call of a turn; `None` is an error. */
  type Chat = (nat, string, seq<ChatMessage>) -> Option<string>

  /** What a turn does to the outside, in order. */
  datatype Effect = Swap | Restore | Call(model: string)

  // ---- layers 1 and 2 ----

  /** Rust's `trim_start_matches`: removes the prefix as often as it stands there. */
  function StripAll(s: string, prefix: string): string
    requires prefix != ""
  {
    if prefix <= s then StripAll(s[|prefix|..], prefix) else s
  }

  /** `route`; `None` is the error for an override without a message. */
  function Route(r: ModelRouter, rules: Rules, input: string): (d: Option<RouteDecision>) {
    var trimmed := Trim(input);
    if "/deep" <= trimmed then
      var rest := Trim(StripAll(trimmed, "/deep"));
      if rest == "" then None else Some(RouteDecision(r.deepModel, rest, "override", false))
    else if "/quick" <= trimmed then
      var rest := Trim(StripAll(trimmed, "/quick"));
      if rest == "" then None else Some(RouteDecision(r.fastModel, rest, "override", true))
    else
      var lower := rules.lower(trimmed);
      if rules.naturalDeep(lower) then Some(RouteDecision(r.deepModel, trimmed, "override", false))
      else if rules.naturalFast(lower) then Some(RouteDecision(r.fastModel, trimmed, "override", true))
      else if rules.needsDeep(trimmed, r.escalationThreshold) then
        Some(RouteDecision(r.deepModel, trimmed, "category", false))
      else Some(RouteDecision(r.fastModel, trimmed, "category", false))
  }

  // ---- layer 3 and the lifecycle ----

  predicate ShouldEscalate(rules: Rules, response: string, layer3Disabled: bool) {
    !layer3Disabled && rules.uncertain(response)
  }

  function Bracket(r: ModelRouter, e: Effect): seq<Effect> { if r.lifecycle then [e] else [] }

  datatype Turn = Turn(trace: seq<Effect>, result: Option<RouterResult>)

  /** The effects and the result of a turn on a given decision. */
  function TurnOf(r: ModelRouter, rules: Rules, d: RouteDecision, messages: seq<ChatMessage>, chat: Chat): Turn {
    var deepFirst := d.model == r.deepModel;
    var opening := if deepFirst then Bracket(r, Swap) else [];
    var first := chat(0, d.model, messages);
    var closing := if deepFirst then Bracket(r, Restore) else [];
    if first.None? then Turn(opening + [Call(d.model)] + closing, None)
    else if ShouldEscalate(rules, first.value, d.layer3Disabled) then
      var second := chat(1, r.deepModel, messages);
      Turn(opening + [Call(d.model)] + (if deepFirst then [] else Bracket(r, Swap)) + [Call(r.deepModel)] + Bracket(r, Restore),
           if second.None? then None else Some(RouterResult(r.deepModel, true, "confidence-fallback", second.value)))
    else
      Turn(opening + [Call(d.model)] + closing, Some(RouterResult(d.model, deepFirst, d.layer, first.value)))
  }

  /** `process_with_messages_and_decision`, effect by effect. */
  method ProcessWithDecision(r: ModelRouter, rules: Rules, d: RouteDecision, messages: seq<ChatMessage>, chat: Chat)
    returns (turn: Turn)
    ensures turn == TurnOf(r, rules, d, messages, chat)
  {
    var trace := [];
    var needDeepFirst := d.model == r.deepModel;
    if needDeepFirst {
      trace := trace + Bracket(r, Swap);
    }
    var first := chat(0, d.model, messages);
    trace := trace + [Call(d.model)];
    if first.None? && needDeepFirst {
      trace := trace + Bracket(r, Restore);
    }
    if first.None? { return Turn(trace, None); }
    if ShouldEscalate(rules, first.value, d.layer3Disabled) {
      if !needDeepFirst {
        trace := trace + Bracket(r, Swap);
      }
      var deepResult := chat(1, r.deepModel, messages);
      trace := trace + [Call(r.deepModel)];
      trace := trace + Bracket(r, Restore);
      if deepResult.None? { return Turn(trace, None); }
      return Turn(trace, Some(RouterResult(r.deepModel, true, "confidence-fallback", deepResult.value)));
    }
    if needDeepFirst {
      trace := trace + Bracket(r, Restore);
    }
    turn := Turn(trace, Some(RouterResult(d.model, d.model == r.deepModel, d.layer, first.value)));
  }

  function BuildMessages(systemPrompt: string, input: string): (messages: seq<ChatMessage>)
    ensures |messages| == 2 && messages[0].role == "system" && messages[0].content == systemPrompt
    ensures messages[1].role == "user" && messages[1].content == input
  {
    [ChatMessage("system", systemPrompt), ChatMessage("user", input)]
  }

  /** `process`, which has the pipeline written out a second time: the same turn on the same decision. */
  method Process(r: ModelRouter, rules: Rules, input: string, systemPrompt: string, chat: Chat) returns (turn: Turn)
    ensures var d := Route(r, rules, input);
            turn == if d.None? then Turn([], None)
                    else TurnOf(r, rules, d.value, BuildMessages(systemPrompt, d.value.cleanedInput), chat)
    ensures NoCommand(input) && r.fastModel != r.deepModel ==>
              PlainTrace(r, rules, input, [ChatMessage("system", systemPrompt), ChatMessage("user", Trim(input))], chat, turn.trace)
  {
    hide Route, Trim, NoCommand, PlainTrace;
    if NoCommand(input) && r.fastModel != r.deepModel { PlainProcess(r, rules, input, systemPrompt, chat); }
    var decision := Route(r, rules, input);
    if decision.None? { return Turn([], None); }
    var initialModel, cleaned := decision.value.model, decision.value.cleanedInput;
    var layer, layer3Disabled := decision.value.layer, decision.value.layer3Disabled;
    var trace := [];
    var needDeepFirst := initialModel == r.deepModel;
    if needDeepFirst {
      trace := trace + Bracket(r, Swap);
    }
    var firstResult := chat(0, initialModel, BuildMessages(systemPrompt, cleaned));
    trace := trace + [Call(initialModel)];
    if firstResult.None? && needDeepFirst {
      trace := trace + Bracket(r, Restore);
    }
    if firstResult.None? { return Turn(trace, None); }
    if ShouldEscalate(rules, firstResult.value, layer3Disabled) {
      if !needDeepFirst {
        trace := trace + Bracket(r, Swap);
      }
      var deepResult := chat(1, r.deepModel, BuildMessages(systemPrompt, cleaned));
      trace := trace + [Call(r.deepModel)];
      trace := trace + Bracket(r, Restore);
      if deepResult.None? { return Turn(trace, None); }
      return Turn(trace, Some(RouterResult(r.deepModel, true, "confidence-fallback", deepResult.value)));
    }
    if needDeepFirst {
      trace := trace + Bracket(r, Restore);
    }
    var escalated := initialModel == r.deepModel;
    turn := Turn(trace, Some(RouterResult(initialModel, escalated, layer, firstResult.value)));
  }

  /** What the per-user budget check answers. */
  datatype Budget = Unchecked | Available | DeepExhausted | CheckFailed

  /** `process_with_messages_for_user`: an exhausted deep budget downgrades the decision. */
  method ProcessForUser(r: ModelRouter, rules: Rules, input: string, messages: seq<ChatMessage>, budget: Budget, chat: Chat)
    returns (turn: Turn)
    ensures var d := Route(r, rules, input);
            turn == if d.None? then Turn([], None) else TurnOf(r, rules, Downgraded(r, d.value, budget), messages, chat)
    ensures NoCommand(input) && r.fastModel != r.deepModel ==>
              if budget == DeepExhausted && AsksForDeep(r, rules, input) then turn.trace == [Call(r.fastModel)]
              else PlainTrace(r, rules, input, messages, chat, turn.trace)
  {
    if NoCommand(input) && r.fastModel != r.deepModel {
      PlainInput(r, rules, input);
      PlainTurn(r, rules, input, messages, chat);
      if AsksForDeep(r, rules, input) { ExhaustedBudgetStaysFast(r, rules, input, messages, chat); }
    }
    hide Route, Trim, NoCommand, PlainTrace;
    var routed := Route(r, rules, input);
    if routed.None? { return Turn([], None); }
    var decision := routed.value;
    if decision.model == r.deepModel {
      if budget == DeepExhausted {
        decision := decision.(model := r.fastModel);
        decision := decision.(layer3Disabled := true);
      }
    }
    turn := ProcessWithDecision(r, rules, decision, messages, chat);
  }

  function Downgraded(r: ModelRouter, d: RouteDecision, budget: Budget): RouteDecision {
    if d.model == r.deepModel && budget == DeepExhausted then d.(model := r.fastModel, layer3Disabled := true) else d
  }

  // ---- main results ----

  /** Which model the lifecycle has put into memory. */
  datatype Loaded = Default | Deep

  /**
   Runs over a trace: a swap only from the default model, a restore only from the deep one,
   deep calls only while the deep model is in, other calls only while it is out.
   */
  function Scan(r: ModelRouter, trace: seq<Effect>, loaded: Loaded): Option<Loaded>
    decreases trace
  {
    if trace == [] then Some(loaded)
    else if Allowed(r, trace[0], loaded) then Scan(r, trace[1..], Next(trace[0], loaded))
    else None
  }

  predicate Allowed(r: ModelRouter, e: Effect, loaded: Loaded) {
    match e
    case Swap => loaded == Default
    case Restore => loaded == Deep
    case Call(m) => (m == r.deepModel) == (loaded == Deep)
  }

  function Next(e: Effect, loaded: Loaded): Loaded {
    match e case Swap => Deep case Restore => Default case Call(_) => loaded
  }

  function Count(trace: seq<Effect>, e: Effect): nat {
    if trace == [] then 0 else (if trace[0] == e then 1 else 0) + Count(trace[1..], e)
  }

  lemma {:induction false} ScanConcat(r: ModelRouter, a: seq<Effect>, b: seq<Effect>, loaded: Loaded)
    ensures Scan(r, a + b, loaded) == (var mid := Scan(r, a, loaded); if mid.None? then None else Scan(r, b, mid.value))
    decreases a
  {
    if a == [] {
      assert a + b == b;
    } else {
      assert (a + b)[1..] == a[1..] + b;
      ScanConcat(r, a[1..], b, Next(a[0], loaded));
    }
  }

  /** The five shapes of a turn's trace. */
  lemma TraceShapes(r: ModelRouter, rules: Rules, d: RouteDecision, messages: seq<ChatMessage>, chat: Chat)
    requires r.lifecycle
    ensures var t, deep, m := TurnOf(r, rules, d, messages, chat).trace, Call(r.deepModel), Call(d.model);
            if d.model == r.deepModel then t == [Swap, deep, Restore] || t == [Swap, deep, deep, Restore]
            else t == [m] || t == [m, Swap, deep, Restore]
  {
  }

  /**
   With a lifecycle client, for every decision and whatever the calls answer: the trace is
   empty of lifecycle steps or has one swap and then one restore, deep calls lie between
   them and no other call does. One or two calls are made.
   */
  lemma TurnBracketed(r: ModelRouter, rules: Rules, d: RouteDecision, messages: seq<ChatMessage>, chat: Chat)
    requires r.lifecycle
    ensures var t := TurnOf(r, rules, d, messages, chat).trace;
            && Scan(r, t, Default) == Some(Default)
            && Count(t, Swap) == Count(t, Restore) <= 1
            && (Count(t, Swap) == 1 <==> Count(t, Call(r.deepModel)) >= 1)
            && 1 <= |t| - Count(t, Swap) - Count(t, Restore) <= 2
  {
    TraceShapes(r, rules, d, messages, chat);
    hide TurnOf, Scan, Count;
    var t := TurnOf(r, rules, d, messages, chat).trace;
    ShortCount(t, Swap);
    ShortCount(t, Restore);
    ShortCount(t, Call(r.deepModel));
    ShortScan(r, t, Default);
  }

  function Hit(t: seq<Effect>, k: nat, e: Effect): nat { if k < |t| && t[k] == e then 1 else 0 }

  lemma {:induction false} ShortCount(t: seq<Effect>, e: Effect)
    requires |t| <= 4
    ensures Count(t, e) == Hit(t, 0, e) + Hit(t, 1, e) + Hit(t, 2, e) + Hit(t, 3, e)
  {
    if t != [] {
      ShortCount(t[1..], e);
      assert forall k :: 0 <= k < 3 ==> Hit(t[1..], k, e) == Hit(t, k + 1, e);
    }
  }

  lemma ShortScan(r: ModelRouter, t: seq<Effect>, l: Loaded)
    requires 1 <= |t| <= 4
    ensures Scan(r, t, l) ==
            if !Allowed(r, t[0], l) then None
            else var l1 := Next(t[0], l);
            if |t| == 1 then Some(l1)
            else if !Allowed(r, t[1], l1) then None
            else var l2 := Next(t[1], l1);
            if |t| == 2 then Some(l2)
            else if !Allowed(r, t[2], l2) then None
            else var l3 := Next(t[2], l2);
            if |t| == 3 then Some(l3)
            else if !Allowed(r, t[3], l3) then None
            else Some(Next(t[3], l3))
  {
    hide Allowed, Next;
    if |t| == 1 {
      assert t[1..] == [];
    } else {
      assert t[1..][0] == t[1] && t[1..][1..] == t[2..];
      if |t| > 2 { assert t[2..][0] == t[2] && t[2..][1..] == t[3..]; } else { assert t[2..] == []; }
      if |t| > 3 { assert t[3..][1..] == []; }
    }
  }

  /** Without a lifecycle client there is nothing but calls. */
  lemma NoLifecycleNoBracket(r: ModelRouter, rules: Rules, d: RouteDecision, messages: seq<ChatMessage>, chat: Chat)
    requires !r.lifecycle
    ensures forall e :: e in TurnOf(r, rules, d, messages, chat).trace ==> e.Call?
  {
  }

  ghost function Joined(traces: seq<seq<Effect>>): seq<Effect> {
    if traces == [] then [] else traces[0] + Joined(traces[1..])
  }

  /** Turns one after another leave the default model in memory after every one of them. */
  lemma {:induction false} TurnsCompose(r: ModelRouter, traces: seq<seq<Effect>>)
    requires forall k :: 0 <= k < |traces| ==> Scan(r, traces[k], Default) == Some(Default)
    ensures Scan(r, Joined(traces), Default) == Some(Default)
  {
    if traces != [] {
      TurnsCompose(r, traces[1..]);
      ScanConcat(r, traces[0], Joined(traces[1..]), Default);
    }
  }

  /** Routing suppresses layer 3 only for a fast override, and gives one of the two models. */
  lemma RouteChoices(r: ModelRouter, rules: Rules, input: string)
    ensures var d := Route(r, rules, input);
            d.Some? ==>
              && (d.value.model == r.fastModel || d.value.model == r.deepModel)
              && (d.value.layer3Disabled ==> d.value.model == r.fastModel && d.value.layer == "override")
              && d.value.cleanedInput == Trim(d.value.cleanedInput)
  {
    hide Trim, StripAll;
    var t := Trim(input);
    TrimTwice(input);
    TrimTwice(StripAll(t, "/deep"));
    TrimTwice(StripAll(t, "/quick"));
  }

  function Repeated(word: string, n: nat): string { if n == 0 then "" else word + Repeated(word, n - 1) }

  /** A message after a command word that may be repeated, with any white space between and around. */
  predicate CommandOk(word: string, n: nat, before: string, space: string, message: string, after: string) {
    && n >= 1 && Blank(before) && Blank(space) && Blank(after) && message != "" && Trimmed(message)
    && !(word <= space + message)
  }

  /** The deep or the fast model gets exactly the message; a command without a message is the error. */
  lemma SlashCommands(
    r: ModelRouter, rules: Rules, n: nat, before: string, space: string, message: string, after: string)
    requires n >= 1 && Blank(before) && Blank(after)
    ensures CommandOk("/deep", n, before, space, message, after) ==>
              Route(r, rules, before + (Repeated("/deep", n) + (space + message)) + after)
              == Some(RouteDecision(r.deepModel, message, "override", false))
    ensures CommandOk("/quick", n, before, space, message, after) ==>
              Route(r, rules, before + (Repeated("/quick", n) + (space + message)) + after)
              == Some(RouteDecision(r.fastModel, message, "override", true))
    ensures Route(r, rules, before + Repeated("/deep", n) + after) == None
    ensures Route(r, rules, before + Repeated("/quick", n) + after) == None
  {
    assert Trimmed("/deep") && Trimmed("/quick");
    hide *;
    if CommandOk("/deep", n, before, space, message, after) {
      CommandText("/deep", n, before, space, message, after);
      RouteCommand(r, rules, before + (Repeated("/deep", n) + (space + message)) + after);
    }
    if CommandOk("/quick", n, before, space, message, after) {
      CommandText("/quick", n, before, space, message, after);
      NotDeep(n, space + message);
      RouteCommand(r, rules, before + (Repeated("/quick", n) + (space + message)) + after);
    }
    CommandAlone("/deep", n, before, after);
    RouteCommand(r, rules, before + Repeated("/deep", n) + after);
    CommandAlone("/quick", n, before, after);
    NotDeep(n, "");
    assert Repeated("/quick", n) + "" == Repeated("/quick", n);
    RouteCommand(r, rules, before + Repeated("/quick", n) + after);
  }

  lemma NotDeep(n: nat, rest: string)
    requires n >= 1
    ensures !("/deep" <= Repeated("/quick", n) + rest)
  {
    assert (Repeated("/quick", n) + rest)[1] == 'q' && "/deep"[1] == 'd';
  }

  /** Routing of an input that is a command. */
  lemma RouteCommand(r: ModelRouter, rules: Rules, input: string)
    ensures var t := Trim(input);
            && ("/deep" <= t ==>
                  var rest := Trim(StripAll(t, "/deep"));
                  Route(r, rules, input) == if rest == "" then None else Some(RouteDecision(r.deepModel, rest, "override", false)))
            && ("/quick" <= t && !("/deep" <= t) ==>
                  var rest := Trim(StripAll(t, "/quick"));
                  Route(r, rules, input) == if rest == "" then None else Some(RouteDecision(r.fastModel, rest, "override", true)))
  {
    hide Trim, StripAll;
  }

  lemma CommandText(word: string, n: nat, before: string, space: string, message: string, after: string)
    requires word != "" && Trimmed(word) && CommandOk(word, n, before, space, message, after)
    ensures var t := Repeated(word, n) + (space + message);
            Trim(before + t + after) == t && word <= t && Trim(StripAll(t, word)) == message
  {
    var t := Repeated(word, n) + (space + message);
    RepeatedTrimmed(word, n);
    StripRepeated(word, n, space + message);
    assert t[0] == Repeated(word, n)[0] && t[|t| - 1] == message[|message| - 1];
    assert Blank("");
    hide Trim, StripAll, Blank, IsWhitespace;
    TrimPadded(before, t, after);
    assert space + message + "" == space + message;
    TrimPadded(space, message, "");
  }

  lemma CommandAlone(word: string, n: nat, before: string, after: string)
    requires word != "" && Trimmed(word) && n >= 1 && Blank(before) && Blank(after)
    ensures var t := Repeated(word, n); Trim(before + t + after) == t && word <= t && Trim(StripAll(t, word)) == ""
  {
    var t := Repeated(word, n);
    RepeatedTrimmed(word, n);
    StripRepeated(word, n, "");
    assert t + "" == t;
    hide Trim, StripAll, Blank, IsWhitespace;
    TrimPadded(before, t, after);
    TrimNothing();
  }

  lemma {:induction false} RepeatedTrimmed(word: string, n: nat)
    requires word != "" && Trimmed(word)
    ensures Trimmed(Repeated(word, n)) && (n >= 1 ==> word <= Repeated(word, n) && |Repeated(word, n)| >= |word|)
  {
    if n > 0 {
      RepeatedTrimmed(word, n - 1);
      var rest := Repeated(word, n - 1);
      var t := word + rest;
      assert t[0] == word[0] && t[|t| - 1] == if rest == "" then word[|word| - 1] else rest[|rest| - 1];
    }
  }

  lemma {:induction false} StripRepeated(word: string, n: nat, rest: string)
    requires word != "" && !(word <= rest)
    ensures StripAll(Repeated(word, n) + rest, word) == rest
    ensures n >= 1 ==> word <= Repeated(word, n) + rest
  {
    if n == 0 {
      assert "" + rest == rest;
    } else {
      var t := Repeated(word, n - 1) + rest;
      assert Repeated(word, n) + rest == word + t;
      assert (word + t)[|word|..] == t;
      StripRepeated(word, n - 1, rest);
    }
  }

  lemma TrimNothing()
    ensures Trim("") == ""
  {
  }

  lemma TrimTwice(s: string)
    ensures Trim(Trim(s)) == Trim(s)
  {
    TrimOfTrimmed(Trim(s));
    var a := TrimStart(s);
    assert Trim(s) <= a;
  }

  /** The input is no slash command. */
  predicate NoCommand(input: string) { !("/deep" <= Trim(input)) && !("/quick" <= Trim(input)) }

  predicate DeepWords(rules: Rules, input: string) { rules.naturalDeep(rules.lower(Trim(input))) }

  predicate FastWords(rules: Rules, input: string) { rules.naturalFast(rules.lower(Trim(input))) && !DeepWords(rules, input) }

  /**
   Any other input is routed by its words, deep ones before fast ones, and without either by
   the category rules; only words count as an override, and only fast ones shut layer 3.
   */
  lemma PlainInput(r: ModelRouter, rules: Rules, input: string)
    requires NoCommand(input)
    ensures Route(r, rules, input).Some?
    ensures var d := Route(r, rules, input).value;
            && d.cleanedInput == Trim(input)
            && d.layer == (if DeepWords(rules, input) || FastWords(rules, input) then "override" else "category")
            && (d.layer3Disabled <==> FastWords(rules, input))
            && (d.model == r.fastModel || d.model == r.deepModel)
            && (r.fastModel != r.deepModel ==>
                  (d.model == r.deepModel
                   <==> DeepWords(rules, input)
                        || (!FastWords(rules, input) && rules.needsDeep(Trim(input), r.escalationThreshold))))
  {
    hide Trim, StripAll;
  }

  /** What the words and the category rules ask for. */
  predicate AsksForDeep(r: ModelRouter, rules: Rules, input: string) {
    DeepWords(rules, input) || (!FastWords(rules, input) && rules.needsDeep(Trim(input), r.escalationThreshold))
  }

  /** The trace of a turn on such an input. */
  ghost predicate PlainTrace(
    r: ModelRouter, rules: Rules, input: string, messages: seq<ChatMessage>, chat: Chat, trace: seq<Effect>)
  {
    var first := chat(0, r.fastModel, messages);
    && (Call(r.deepModel) in trace
        <==> AsksForDeep(r, rules, input) || (!FastWords(rules, input) && first.Some? && rules.uncertain(first.value)))
    && (Call(r.deepModel) !in trace ==> trace == [Call(r.fastModel)])
  }

  /**
   So a turn on such an input reaches the deep model if and only if deep words or, without fast
   words, the category rules ask for it or the fast answer is uncertain.
   */
  lemma PlainTurn(r: ModelRouter, rules: Rules, input: string, messages: seq<ChatMessage>, chat: Chat)
    requires NoCommand(input) && r.fastModel != r.deepModel
    ensures Route(r, rules, input).Some?
    ensures PlainTrace(r, rules, input, messages, chat, TurnOf(r, rules, Route(r, rules, input).value, messages, chat).trace)
  {
    PlainInput(r, rules, input);
    hide Route, Trim;
    DeepCallIff(r, rules, Route(r, rules, input).value, messages, chat);
  }

  lemma PlainProcess(r: ModelRouter, rules: Rules, input: string, systemPrompt: string, chat: Chat)
    requires NoCommand(input) && r.fastModel != r.deepModel
    ensures Route(r, rules, input).Some?
    ensures var d := Route(r, rules, input).value;
            PlainTrace(r, rules, input, [ChatMessage("system", systemPrompt), ChatMessage("user", Trim(input))], chat,
                       TurnOf(r, rules, d, BuildMessages(systemPrompt, d.cleanedInput), chat).trace)
  {
    PlainInput(r, rules, input);
    PlainTurn(r, rules, input, BuildMessages(systemPrompt, Trim(input)), chat);
    hide Route, Trim, NoCommand, PlainTrace, TurnOf;
  }

  /** Only an exhausted deep budget changes a decision, and only one for the deep model. */
  lemma OnlyExhaustionDowngrades(r: ModelRouter, d: RouteDecision, budget: Budget)
    ensures Downgraded(r, d, budget) == d || (budget == DeepExhausted && d.model == r.deepModel)
    ensures budget == DeepExhausted && d.model == r.deepModel && r.fastModel != r.deepModel ==>
              Downgraded(r, d, budget) != d && Downgraded(r, d, budget).model == r.fastModel
    ensures Downgraded(r, d, budget).cleanedInput == d.cleanedInput && Downgraded(r, d, budget).layer == d.layer
  {
  }

  /**
   The deep model is called exactly when the decision names it or layer 3 is open and the
   first answer is an uncertain one. So a fast override never reaches it.
   */
  lemma DeepCallIff(r: ModelRouter, rules: Rules, d: RouteDecision, messages: seq<ChatMessage>, chat: Chat)
    ensures var first := chat(0, d.model, messages);
            Call(r.deepModel) in TurnOf(r, rules, d, messages, chat).trace
            <==> || d.model == r.deepModel
                 || (first.Some? && !d.layer3Disabled && rules.uncertain(first.value))
  {
    var first := chat(0, d.model, messages);
    var t := TurnOf(r, rules, d, messages, chat).trace;
    if d.model == r.deepModel {
      var k := if r.lifecycle then 1 else 0;
      assert t[k] == Call(d.model);
    } else if first.Some? && ShouldEscalate(rules, first.value, d.layer3Disabled) {
      var k := if r.lifecycle then 2 else 1;
      assert t[k] == Call(r.deepModel);
    } else {
      assert t == [Call(d.model)];
    }
  }

  /** A fast override, by command or in words, yields one fast call and nothing else, whatever the answer. */
  lemma FastOverrideStaysFast(
    r: ModelRouter, rules: Rules, input: string, messages: seq<ChatMessage>, chat: Chat)
    requires r.fastModel != r.deepModel && Route(r, rules, input).Some?
    ensures var d := Route(r, rules, input).value;
            && (d.layer3Disabled <==> d.layer == "override" && d.model == r.fastModel)
            && (d.layer == "override" && d.model == r.fastModel ==>
                  TurnOf(r, rules, d, messages, chat).trace == [Call(r.fastModel)])
  {
    hide Trim, StripAll;
    assert "override"[0] != "category"[0];
  }

  /** An exhausted deep budget means no deep call and no swap, as long as the two models differ. */
  lemma ExhaustedBudgetStaysFast(
    r: ModelRouter, rules: Rules, input: string, messages: seq<ChatMessage>, chat: Chat)
    requires r.fastModel != r.deepModel && Route(r, rules, input).Some?
    ensures var d := Route(r, rules, input).value;
            d.model == r.deepModel ==>
              TurnOf(r, rules, Downgraded(r, d, DeepExhausted), messages, chat).trace == [Call(r.fastModel)]
  {
    hide Route;
  }

  /** The reported model is the one called last; it is reported as escalated exactly if it is the deep one. */
  lemma ResultIsLastCall(r: ModelRouter, rules: Rules, d: RouteDecision, messages: seq<ChatMessage>, chat: Chat)
    ensures var turn := TurnOf(r, rules, d, messages, chat);
            var calls := Calls(turn.trace);
            && calls != []
            && (turn.result.None? <==> chat(|calls| - 1, calls[|calls| - 1], messages).None?)
            && (turn.result.Some? ==>
                  && turn.result.value.modelUsed == calls[|calls| - 1]
                  && Some(turn.result.value.response) == chat(|calls| - 1, calls[|calls| - 1], messages)
                  && (turn.result.value.escalated <==> turn.result.value.modelUsed == r.deepModel)
                  && turn.result.value.decisionLayer == if |calls| == 2 then "confidence-fallback" else d.layer)
  {
    CallsOfTurn(r, rules, d, messages, chat);
    hide Calls;
  }

  lemma CallsOfTurn(r: ModelRouter, rules: Rules, d: RouteDecision, messages: seq<ChatMessage>, chat: Chat)
    ensures var first := chat(0, d.model, messages);
            Calls(TurnOf(r, rules, d, messages, chat).trace)
            == if first.Some? && ShouldEscalate(rules, first.value, d.layer3Disabled) then [d.model, r.deepModel] else [d.model]
  {
    hide Bracket, Calls;
    var first := chat(0, d.model, messages);
    CallsOfOne(r, d.model);
    CallsOfOne(r, r.deepModel);
    var open := if d.model == r.deepModel then Bracket(r, Swap) else [];
    CallsConcat(open, [Call(d.model)]);
    if first.Some? && ShouldEscalate(rules, first.value, d.layer3Disabled) {
      var mid := if d.model == r.deepModel then [] else Bracket(r, Swap);
      var t := open + [Call(d.model)];
      CallsConcat(t, mid);
      CallsConcat(t + mid, [Call(r.deepModel)]);
      CallsConcat(t + mid + [Call(r.deepModel)], Bracket(r, Restore));
    } else {
      CallsConcat(open + [Call(d.model)], if d.model == r.deepModel then Bracket(r, Restore) else []);
    }
  }

  lemma CallsOfOne(r: ModelRouter, model: string)
    ensures Calls([Call(model)]) == [model] && Calls([]) == []
    ensures Calls(Bracket(r, Swap)) == [] && Calls(Bracket(r, Restore)) == []
  {
  }

  /** The models called, in order. */
  function Calls(trace: seq<Effect>): seq<string> {
    if trace == [] then [] else (if trace[0].Call? then [trace[0].model] else []) + Calls(trace[1..])
  }

  lemma {:induction false} CallsConcat(a: seq<Effect>, b: seq<Effect>)
    ensures Calls(a + b) == Calls(a) + Calls(b)
  {
    if a == [] {
      assert a + b == b;
    } else {
      assert (a + b)[1..] == a[1..] + b;
      CallsConcat(a[1..], b);
    }
  }
}
