/** What a run of the agent emits, and how often and with how many tokens it calls the model. */
module AgentOutput {
  import opened Wrappers
  import opened Conversation
  import opened AgentRun

  function Yields(actions: seq<Action>): seq<AgentChunk> {
    if actions == [] then []
    else
      var last := actions[|actions| - 1];
      Yields(actions[..|actions| - 1]) + if last.Yield? then [last.chunk] else []
  }

  lemma {:induction false} YieldsConcat(a: seq<Action>, b: seq<Action>)
    ensures Yields(a + b) == Yields(a) + Yields(b)
  {
    if b == [] {
      assert a + b == a;
    } else {
      assert (a + b)[..|a + b| - 1] == a + b[..|b| - 1];
      YieldsConcat(a, b[..|b| - 1]);
    }
  }

  // ----- The grammar of the output -----

  /** (tool_start n, tool_end n)+ */
  ghost predicate StartEndPairs(c: seq<AgentChunk>) {
    && c != [] && |c| % 2 == 0
    && forall j :: 0 <= j < |c| / 2 ==>
         c[2 * j].ToolStart? && c[2 * j + 1].ToolEnd? && c[2 * j].toolName == c[2 * j + 1].toolName
  }

  /** (tool_start n, tool_end n)+ execution_recovery? */
  ghost predicate ToolRoundOutput(c: seq<AgentChunk>) {
    StartEndPairs(c) || (c != [] && c[|c| - 1].ExecutionRecovery? && StartEndPairs(c[..|c| - 1]))
  }

  /** text done | done | error | ai_recovery */
  predicate Ending(c: seq<AgentChunk>) {
    || (|c| == 1 && (c[0].Done? || c[0].Error? || c[0].AiRecovery?))
    || (|c| == 2 && c[0].TextChunk? && c[1].Done?)
  }

  ghost predicate RunOutput(c: seq<AgentChunk>)
    decreases |c|
  {
    Ending(c) || exists k :: 0 < k < |c| && ToolRoundOutput(c[..k]) && RunOutput(c[k..])
  }

  lemma RoundThenRest(round: seq<AgentChunk>, rest: seq<AgentChunk>)
    requires ToolRoundOutput(round) && RunOutput(rest)
    ensures RunOutput(round + rest)
  {
    var c := round + rest;
    assert c[..|round|] == round && c[|round|..] == rest;
    assert rest != [];
  }

  lemma OneYield(a: Action)
    ensures Yields([a]) == if a.Yield? then [a.chunk] else []
  {
    assert [a][..0] == [];
  }

  lemma {:induction false} ToolChunksYieldPairs(uses: seq<Use>, outcomes: seq<Outcome>)
    requires |uses| == |outcomes|
    ensures uses == [] ==> Yields(ToolChunks(uses, outcomes)) == []
    ensures uses != [] ==> StartEndPairs(Yields(ToolChunks(uses, outcomes)))
  {
    hide StartEndPairs, Yields;
    if uses == [] {
      NothingYields();
    } else {
      var front := ToolChunks(uses[..|uses| - 1], outcomes[..|uses| - 1]);
      var a := Yield(ToolStart(uses[|uses| - 1].name, uses[|uses| - 1].input));
      var b := Yield(ToolEnd(uses[|uses| - 1].name, outcomes[|uses| - 1].success, outcomes[|uses| - 1].output));
      ToolChunksYieldPairs(uses[..|uses| - 1], outcomes[..|uses| - 1]);
      YieldsConcat(front, [a, b]);
      YieldsConcat([a], [b]);
      OneYield(a);
      OneYield(b);
      assert [a, b] == [a] + [b];
      assert [a.chunk] + [b.chunk] == [a.chunk, b.chunk];
      OneMorePair(Yields(front), a.chunk, b.chunk);
    }
  }

  lemma NothingYields()
    ensures Yields([]) == []
  {}

  lemma OneMorePair(c: seq<AgentChunk>, a: AgentChunk, b: AgentChunk)
    requires c == [] || StartEndPairs(c)
    requires a.ToolStart? && b.ToolEnd? && a.toolName == b.toolName
    ensures StartEndPairs(c + [a, b])
  {
    assert |c| % 2 == 0;
  }

  lemma ToolRoundYields(text: string, uses: seq<Use>, outcomes: seq<Outcome>)
    requires |uses| == |outcomes| && uses != []
    ensures StartEndPairs(Yields(ToolRoundActions(text, uses, outcomes)))
  {
    hide ToolChunks, StartEndPairs, Yields;
    var rows := ToolRoundRows(text, uses, outcomes);
    var chunks := ToolChunks(uses, outcomes);
    YieldsConcat([Insert(rows[0])] + chunks, [Insert(rows[1])]);
    YieldsConcat([Insert(rows[0])], chunks);
    OneYield(Insert(rows[0]));
    OneYield(Insert(rows[1]));
    ToolChunksYieldPairs(uses, outcomes);
    assert [] + Yields(chunks) + [] == Yields(chunks);
  }

  lemma EndsAtOnce(last: AgentChunk)
    requires Ending([last])
    ensures RunOutput(Yields([Yield(last)]))
  {
    OneYield(Yield(last));
  }

  lemma EndsWithText(text: string, last: AgentChunk)
    requires last.Done?
    ensures Ending(Yields(Deliver(text) + [Yield(last)])) && RunOutput(Yields(Deliver(text) + [Yield(last)]))
  {
    YieldsConcat(Deliver(text), [Yield(last)]);
    YieldsConcat([Yield(TextChunk(text))], [Insert(AssistantRow(text))]);
    OneYield(Yield(TextChunk(text)));
    OneYield(Insert(AssistantRow(text)));
    OneYield(Yield(last));
  }

  /**
   * What a run emits from some round on is
   * ((tool_start n, tool_end n)+ execution_recovery?)* followed by one of: text done, done, error, ai_recovery.
   */
  lemma {:induction false} RoundsOutput(round: nat, messages: seq<Message>, tokens: nat, source: string, script: seq<RoundInput>)
    requires Scripted(script) && round <= MAX_TOOL_ROUNDS
    ensures RunOutput(Yields(Rounds(round, messages, tokens, source, script).actions))
    decreases MAX_TOOL_ROUNDS - round, 1
  {
    hide RunOutput, AfterCall, Yields;
    if round == MAX_TOOL_ROUNDS {
      EndsAtOnce(Done(tokens));
    } else if script[round].abortedBefore {
      EndsAtOnce(Error("Aborted by user"));
    } else {
      var rest := AfterCall(round, messages, tokens, source, script);
      AfterCallOutput(round, messages, tokens, source, script);
      YieldsConcat([CallModel(round, messages)], rest.actions);
      OneYield(CallModel(round, messages));
      assert [] + Yields(rest.actions) == Yields(rest.actions);
    }
  }

  lemma {:induction false} AfterCallOutput(round: nat, messages: seq<Message>, tokens: nat, source: string, script: seq<RoundInput>)
    requires Scripted(script) && round < MAX_TOOL_ROUNDS
    ensures RunOutput(Yields(AfterCall(round, messages, tokens, source, script).actions))
    decreases MAX_TOOL_ROUNDS - round, 0
  {
    hide RunOutput, StartEndPairs, AfterTools, Yields, TextOf, UsesOf, TokensOf, ToolRoundActions, ToolRoundMessages;
    var input := script[round];
    var text, uses, total := TextOf(input.chunks), UsesOf(input.chunks), tokens + TokensOf(input.chunks);
    match input.end
    case FailedAborted => EndsAtOnce(Error("Aborted"));
    case Failed(reason, message) => EndsAtOnce(AiRecovery(reason, message));
    case Finished =>
      if uses == [] {
        EndsAtOnce(Done(total));
        EndsWithText(text, Done(total));
      } else {
        var next := messages + ToolRoundMessages(text, uses, input.outcomes);
        var first, rest := ToolRoundActions(text, uses, input.outcomes), AfterTools(round, next, total, source, script);
        ToolRoundYields(text, uses, input.outcomes);
        YieldsConcat(first, rest.actions);
        AfterToolsOutput(round, next, total, source, script, Yields(first));
      }
  }

  lemma {:induction false} AfterToolsOutput(round: nat, messages: seq<Message>, tokens: nat, source: string, script: seq<RoundInput>,
                                            pairs: seq<AgentChunk>)
    requires Scripted(script) && round < MAX_TOOL_ROUNDS && StartEndPairs(pairs)
    ensures RunOutput(pairs + Yields(AfterTools(round, messages, tokens, source, script).actions))
    decreases MAX_TOOL_ROUNDS - round - 1, 2
  {
    hide RunOutput, StartEndPairs, Rounds, Yields, UsesOf, RecoveryNames, StopsAfterRound, TerminalFailureText, Deliver;
    var uses, outcomes := UsesOf(script[round].chunks), script[round].outcomes;
    var failure := TerminalFailureText(outcomes);
    EndsAtOnce(Done(tokens));
    if failure.Some? {
      EndsWithText(failure.value, Done(tokens));
      RoundThenRest(pairs, Yields(Deliver(failure.value) + [Yield(Done(tokens))]));
    } else if StopsAfterRound(source, uses, outcomes) {
      RoundThenRest(pairs, Yields([Yield(Done(tokens))]));
    } else {
      var rest := if tokens > MAX_CONTEXT_TOKENS then Result([Yield(Done(tokens))], messages, None)
                  else Rounds(round + 1, messages, tokens, source, script);
      if tokens <= MAX_CONTEXT_TOKENS {
        RoundsOutput(round + 1, messages, tokens, source, script);
      }
      RecoveryThenRest(pairs, RecoveryNames(uses, outcomes), rest.actions);
    }
  }

  lemma RecoveryThenRest(pairs: seq<AgentChunk>, toolNames: seq<string>, rest: seq<Action>)
    requires StartEndPairs(pairs) && RunOutput(Yields(rest))
    ensures RunOutput(pairs + Yields(Recovery(toolNames) + rest))
  {
    hide RunOutput, Yields;
    YieldsConcat(Recovery(toolNames), rest);
    if toolNames == [] {
      assert Recovery(toolNames) + rest == rest;
      RoundThenRest(pairs, Yields(rest));
    } else {
      var recovery := ExecutionRecovery(toolNames);
      OneYield(Yield(recovery));
      assert (pairs + [recovery])[..|pairs|] == pairs;
      RoundThenRest(pairs + [recovery], Yields(rest));
      assert pairs + ([recovery] + Yields(rest)) == (pairs + [recovery]) + Yields(rest);
    }
  }

  /** The output of every whole run follows the grammar; a run that was cut short has emitted a prefix of such an output. */
  lemma RunsFollowGrammar(log: seq<Row>, userMessage: string, source: string, script: seq<RoundInput>, cut: nat)
    requires Scripted(script) && cut <= |Run(log, userMessage, source, script).actions|
    ensures var actions := Run(log, userMessage, source, script).actions;
            RunOutput(Yields(actions)) && Yields(actions[..cut]) <= Yields(actions)
  {
    hide RunOutput, Rounds, Yields, Sanitize;
    var start := Sanitize(LoadAll(log)) + [Load(UserRow(userMessage))];
    var rest := Rounds(0, start, 0, source, script);
    RoundsOutput(0, start, 0, source, script);
    YieldsConcat([Insert(UserRow(userMessage))], rest.actions);
    OneYield(Insert(UserRow(userMessage)));
    assert [] + Yields(rest.actions) == Yields(rest.actions);
    var actions := Run(log, userMessage, source, script).actions;
    YieldsConcat(actions[..cut], actions[cut..]);
    assert actions == actions[..cut] + actions[cut..];
  }

  /** In such an output a text is directly followed by done, and nothing follows the ending. */
  lemma {:induction false} TextIsFollowedByDone(c: seq<AgentChunk>, i: nat)
    requires RunOutput(c) && i < |c|
    ensures c[i].TextChunk? ==> i + 1 < |c| && c[i + 1].Done?
    ensures c[i].Done? || c[i].Error? || c[i].AiRecovery? <==> i == |c| - 1
    decreases |c|
  {
    if !Ending(c) {
      var k :| 0 < k < |c| && ToolRoundOutput(c[..k]) && RunOutput(c[k..]);
      if i >= k {
        TextIsFollowedByDone(c[k..], i - k);
      } else {
        RoundHasNoEnding(c[..k], i);
        assert c[..k][i] == c[i];
        OutputNotEmpty(c[k..]);
      }
    }
  }

  lemma OutputNotEmpty(c: seq<AgentChunk>)
    requires RunOutput(c)
    ensures c != []
  {}

  lemma RoundHasNoEnding(c: seq<AgentChunk>, i: nat)
    requires ToolRoundOutput(c) && i < |c|
    ensures c[i].ToolStart? || c[i].ToolEnd? || c[i].ExecutionRecovery?
  {
    var pairs := if StartEndPairs(c) then c else c[..|c| - 1];
    if i < |pairs| {
      var j := i / 2;
      assert i == 2 * j || i == 2 * j + 1;
      assert pairs[2 * j].ToolStart? && pairs[2 * j + 1].ToolEnd?;
    }
  }

  // ----- Model calls and tokens -----

  /** The tokens that the streams of the first r rounds report. */
  function TokensBefore(script: seq<RoundInput>, r: nat): nat
    requires r <= |script|
  {
    if r == 0 then 0 else TokensBefore(script, r - 1) + TokensOf(script[r - 1].chunks)
  }

  function Calls(actions: seq<Action>): seq<nat> {
    if actions == [] then []
    else
      var last := actions[|actions| - 1];
      Calls(actions[..|actions| - 1]) + if last.CallModel? then [last.round] else []
  }

  lemma {:induction false} CallsConcat(a: seq<Action>, b: seq<Action>)
    ensures Calls(a + b) == Calls(a) + Calls(b)
  {
    if b == [] {
      assert a + b == a;
    } else {
      assert (a + b)[..|a + b| - 1] == a + b[..|b| - 1];
      CallsConcat(a, b[..|b| - 1]);
    }
  }

  lemma {:induction false} NoCallsIn(actions: seq<Action>)
    requires forall i :: 0 <= i < |actions| ==> !actions[i].CallModel?
    ensures Calls(actions) == []
  {
    if actions != [] {
      NoCallsIn(actions[..|actions| - 1]);
    }
  }

  lemma {:induction false} NoCallsInToolChunks(uses: seq<Use>, outcomes: seq<Outcome>)
    requires |uses| == |outcomes|
    ensures forall i :: 0 <= i < |ToolChunks(uses, outcomes)| ==> !ToolChunks(uses, outcomes)[i].CallModel?
  {
    if uses != [] {
      NoCallsInToolChunks(uses[..|uses| - 1], outcomes[..|uses| - 1]);
    }
  }

  /** The calls are the rounds from this one on without gaps, and each is made within the token budget. */
  ghost predicate CallsInBudget(round: nat, calls: seq<nat>, script: seq<RoundInput>)
    requires |script| == MAX_TOOL_ROUNDS
  {
    forall i :: 0 <= i < |calls| ==>
      && calls[i] == round + i < MAX_TOOL_ROUNDS
      && TokensBefore(script, calls[i]) <= MAX_CONTEXT_TOKENS
  }

  lemma {:induction false} RoundsCallsInBudget(round: nat, messages: seq<Message>, tokens: nat, source: string, script: seq<RoundInput>)
    requires Scripted(script) && round <= MAX_TOOL_ROUNDS
    requires tokens == TokensBefore(script, round) <= MAX_CONTEXT_TOKENS
    ensures CallsInBudget(round, Calls(Rounds(round, messages, tokens, source, script).actions), script)
    decreases MAX_TOOL_ROUNDS - round, 1
  {
    hide AfterCall, Calls;
    var actions := Rounds(round, messages, tokens, source, script).actions;
    if round == MAX_TOOL_ROUNDS || script[round].abortedBefore {
      NoCallsIn(actions);
    } else {
      var rest := AfterCall(round, messages, tokens, source, script);
      AfterCallCallsInBudget(round, messages, tokens, source, script);
      CallsConcat([CallModel(round, messages)], rest.actions);
      OneCall(round, messages);
    }
  }

  lemma OneCall(round: nat, messages: seq<Message>)
    ensures Calls([CallModel(round, messages)]) == [round]
  {
    assert [CallModel(round, messages)][..0] == [];
  }

  lemma {:induction false} AfterCallCallsInBudget(round: nat, messages: seq<Message>, tokens: nat, source: string, script: seq<RoundInput>)
    requires Scripted(script) && round < MAX_TOOL_ROUNDS && tokens == TokensBefore(script, round)
    ensures CallsInBudget(round + 1, Calls(AfterCall(round, messages, tokens, source, script).actions), script)
    decreases MAX_TOOL_ROUNDS - round, 0
  {
    hide AfterTools, Calls, TextOf, UsesOf, ToolChunks, CallsInBudget;
    var input := script[round];
    var text, uses, total := TextOf(input.chunks), UsesOf(input.chunks), tokens + TokensOf(input.chunks);
    NoneInBudget(round + 1, script);
    if !input.end.Finished? || uses == [] {
      NoCallsIn(AfterCall(round, messages, tokens, source, script).actions);
    } else {
      var next := messages + ToolRoundMessages(text, uses, input.outcomes);
      var first, rest := ToolRoundActions(text, uses, input.outcomes), AfterTools(round, next, total, source, script);
      NoCallsInToolChunks(uses, input.outcomes);
      NoCallsIn(first);
      CallsConcat(first, rest.actions);
      assert [] + Calls(rest.actions) == Calls(rest.actions);
      AfterToolsCallsInBudget(round, next, total, source, script);
    }
  }

  lemma NoneInBudget(round: nat, script: seq<RoundInput>)
    requires |script| == MAX_TOOL_ROUNDS
    ensures CallsInBudget(round, [], script)
  {}

  lemma {:induction false} AfterToolsCallsInBudget(round: nat, messages: seq<Message>, tokens: nat, source: string, script: seq<RoundInput>)
    requires Scripted(script) && round < MAX_TOOL_ROUNDS && tokens == TokensBefore(script, round + 1)
    ensures CallsInBudget(round + 1, Calls(AfterTools(round, messages, tokens, source, script).actions), script)
    decreases MAX_TOOL_ROUNDS - round - 1, 2
  {
    hide Rounds, Calls, UsesOf, RecoveryNames, StopsAfterRound, TerminalFailureText, CallsInBudget;
    var uses, outcomes := UsesOf(script[round].chunks), script[round].outcomes;
    NoneInBudget(round + 1, script);
    if TerminalFailureText(outcomes).Some? || StopsAfterRound(source, uses, outcomes) || tokens > MAX_CONTEXT_TOKENS {
      NoCallsIn(AfterTools(round, messages, tokens, source, script).actions);
    } else {
      var rest := Rounds(round + 1, messages, tokens, source, script);
      RoundsCallsInBudget(round + 1, messages, tokens, source, script);
      NoCallsIn(Recovery(RecoveryNames(uses, outcomes)));
      CallsConcat(Recovery(RecoveryNames(uses, outcomes)), rest.actions);
      assert [] + Calls(rest.actions) == Calls(rest.actions);
    }
  }

  /** A run makes at most 20 model calls, in rounds 0, 1, 2, ..., and never calls with more than 150000 tokens counted before. */
  lemma RunsCallWithinBudget(log: seq<Row>, userMessage: string, source: string, script: seq<RoundInput>)
    requires Scripted(script)
    ensures var calls := Calls(Run(log, userMessage, source, script).actions);
            && |calls| <= 20
            && forall i :: 0 <= i < |calls| ==> calls[i] == i && TokensBefore(script, i) <= 150000
  {
    hide Rounds, Calls, Sanitize;
    var start := Sanitize(LoadAll(log)) + [Load(UserRow(userMessage))];
    var rest := Rounds(0, start, 0, source, script);
    RoundsCallsInBudget(0, start, 0, source, script);
    NoCallsIn([Insert(UserRow(userMessage))]);
    CallsConcat([Insert(UserRow(userMessage))], rest.actions);
    var calls := Calls(rest.actions);
    assert [] + calls == calls;
    assert |calls| > 0 ==> calls[|calls| - 1] == |calls| - 1 < 20;
  }
}
