/**
 * What a run makes of its streams and tool results, said in terms of those alone: which text is delivered, which
 * round is the last, what the tools' chunks and results say, and which tokens are counted.
 */
module AgentRounds {
  import opened Wrappers
  import opened Text
  import opened Conversation
  import opened AgentRun
  import opened AgentOutput
  import opened AgentSession

  // ----- Streams -----

  /** The text of a stream is the joined text of its parts: every delta in order, and nothing else. */
  lemma {:induction false} TextOfLaws(a: seq<AiChunk>, b: seq<AiChunk>, c: AiChunk)
    ensures TextOf([]) == ""
    ensures TextOf(a + b) == TextOf(a) + TextOf(b)
    ensures TextOf([c]) == match c case TextDelta(delta) => delta case _ => ""
  {
    assert [c][..0] == [];
    if b == [] {
      assert a + b == a;
    } else {
      assert (a + b)[..|a + b| - 1] == a + b[..|b| - 1];
      TextOfLaws(a, b[..|b| - 1], c);
    }
  }

  /** The tool uses of a stream, in the order of the stream. */
  lemma {:induction false} UsesOfLaws(a: seq<AiChunk>, b: seq<AiChunk>, c: AiChunk)
    ensures UsesOf([]) == []
    ensures UsesOf(a + b) == UsesOf(a) + UsesOf(b)
    ensures UsesOf([c]) == match c case UseTool(use) => [use] case _ => []
  {
    assert [c][..0] == [];
    if b == [] {
      assert a + b == a;
    } else {
      assert (a + b)[..|a + b| - 1] == a + b[..|b| - 1];
      UsesOfLaws(a, b[..|b| - 1], c);
    }
  }

  /** The tokens of a stream: input and output of every stop message. */
  lemma {:induction false} TokensOfLaws(a: seq<AiChunk>, b: seq<AiChunk>, c: AiChunk)
    ensures TokensOf([]) == 0
    ensures TokensOf(a + b) == TokensOf(a) + TokensOf(b)
    ensures TokensOf([c]) == match c case MessageStop(input, output) => input + output case _ => 0
  {
    assert [c][..0] == [];
    if b == [] {
      assert a + b == a;
    } else {
      assert (a + b)[..|a + b| - 1] == a + b[..|b| - 1];
      TokensOfLaws(a, b[..|b| - 1], c);
    }
  }

  /** The deltas of a stream, joined from the front. */
  function JoinedDeltas(chunks: seq<AiChunk>): string {
    if chunks == [] then ""
    else (match chunks[0] case TextDelta(delta) => delta case _ => "") + JoinedDeltas(chunks[1..])
  }

  lemma {:induction false} TextIsJoinedDeltas(chunks: seq<AiChunk>)
    ensures TextOf(chunks) == JoinedDeltas(chunks)
  {
    if chunks != [] {
      TextIsJoinedDeltas(chunks[1..]);
      TextOfLaws([chunks[0]], chunks[1..], chunks[0]);
      assert chunks == [chunks[0]] + chunks[1..];
    }
  }

  // ----- Tools -----

  /** Tool number j of a round is announced and reported by chunks 2j and 2j + 1, with its own input and result. */
  lemma {:induction false} ToolChunksInOrder(uses: seq<Use>, outcomes: seq<Outcome>)
    requires |uses| == |outcomes|
    ensures |ToolChunks(uses, outcomes)| == 2 * |uses|
    ensures forall j :: 0 <= j < |uses| ==>
              && ToolChunks(uses, outcomes)[2 * j] == Yield(ToolStart(uses[j].name, uses[j].input))
              && ToolChunks(uses, outcomes)[2 * j + 1] == Yield(ToolEnd(uses[j].name, outcomes[j].success, outcomes[j].output))
  {
    if uses != [] {
      ToolChunksInOrder(uses[..|uses| - 1], outcomes[..|uses| - 1]);
    }
  }

  /**
   * The two rows of a round: the assistant's text and, block by block, its tool uses behind that text; then one result
   * per use, with what the model gets to see and the failures marked.
   */
  lemma RoundRowsSay(text: string, uses: seq<Use>, outcomes: seq<Outcome>)
    requires |uses| == |outcomes|
    ensures var rows := ToolRoundRows(text, uses, outcomes);
            && |rows| == 2 && rows[0].role == Assistant && rows[0].content == text && rows[1].role == User && rows[1].content == ""
            && rows[0].toolCalls.Some? && rows[1].toolCalls.Some?
            && var call, reply := rows[0].toolCalls.value, rows[1].toolCalls.value;
               var skip := if text == "" then 0 else 1;
            && |call| == |uses| + skip && |reply| == |uses|
            && (text != "" ==> call[0] == Text(text))
            && forall j :: 0 <= j < |uses| ==>
                 && call[skip + j] == ToolUse(uses[j].id, uses[j].name, uses[j].input)
                 && reply[j] == ToolResult(uses[j].id, outcomes[j].rendered, !outcomes[j].success)
  {
    hide UseBlocks, ResultBlocks;
    BlocksSay(uses, outcomes);
  }

  lemma BlocksSay(uses: seq<Use>, outcomes: seq<Outcome>)
    requires |uses| == |outcomes|
    ensures |UseBlocks(uses)| == |uses| == |ResultBlocks(uses, outcomes)|
    ensures forall j :: 0 <= j < |uses| ==>
              && UseBlocks(uses)[j] == ToolUse(uses[j].id, uses[j].name, uses[j].input)
              && ResultBlocks(uses, outcomes)[j] == ToolResult(uses[j].id, outcomes[j].rendered, !outcomes[j].success)
  {}

  /** The failure of a tool that acts on the machine, other than for want of a camera on the wanted side. */
  predicate CallsForRecovery(use: Use, outcome: Outcome) {
    && !outcome.success
    && (use.name == "shell_exec" || use.name == "app_launch" || use.name == "process_kill" || use.name == "screen_capture"
        || use.name == "mouse_move" || use.name == "mouse_click" || use.name == "keyboard_type"
        || use.name == "yeonjang_camera_list" || use.name == "yeonjang_camera_capture")
    && (outcome.error.None? || outcome.error.value != "CAMERA_FACING_SELECTION_UNSUPPORTED")
  }

  lemma RecoveryMeans(use: Use, outcome: Outcome)
    ensures SignalsRecovery(use.name, outcome) <==> CallsForRecovery(use, outcome)
  {}

  /** A name is reported for recovery exactly if one of its uses calls for it, and only once. */
  lemma {:induction false} RecoveryNamesAre(uses: seq<Use>, outcomes: seq<Outcome>, name: string)
    requires |uses| == |outcomes|
    ensures name in RecoveryNames(uses, outcomes) <==>
            exists j :: 0 <= j < |uses| && uses[j].name == name && CallsForRecovery(uses[j], outcomes[j])
    ensures forall i, j :: 0 <= i < j < |RecoveryNames(uses, outcomes)| ==>
              RecoveryNames(uses, outcomes)[i] != RecoveryNames(uses, outcomes)[j]
  {
    hide SignalsRecovery, CallsForRecovery;
    if uses != [] {
      var n := |uses| - 1;
      var u, o := uses[..n], outcomes[..n];
      RecoveryNamesAre(u, o, name);
      RecoveryMeans(uses[n], outcomes[n]);
      if name in RecoveryNames(u, o) {
        var j :| 0 <= j < |u| && u[j].name == name && CallsForRecovery(u[j], o[j]);
        assert uses[j].name == name && CallsForRecovery(uses[j], outcomes[j]);
      }
      RecoveryNamesKept(uses, outcomes, name);
    }
  }

  lemma {:induction false} RecoveryNamesKept(uses: seq<Use>, outcomes: seq<Outcome>, name: string)
    requires |uses| == |outcomes| && uses != []
    ensures var n := |uses| - 1;
            name in RecoveryNames(uses, outcomes) <==>
            name in RecoveryNames(uses[..n], outcomes[..n]) || (uses[n].name == name && SignalsRecovery(uses[n].name, outcomes[n]))
  {
    hide SignalsRecovery;
  }

  /** A failure whose tool wants the run to stop with its output, which is not blank. */
  predicate FailsForGood(o: Outcome) {
    && !o.success && o.details.Details? && o.details.stopAfterFailure
    && exists i :: 0 <= i < |o.output| && !IsScriptWhitespace(o.output[i])
  }

  lemma OutputNotBlank(o: Outcome)
    ensures TrimmedOutput(o) != "" <==> exists i :: 0 <= i < |o.output| && !IsScriptWhitespace(o.output[i])
  {
    TrimByEmpty(o.output, IsScriptWhitespace);
  }

  /** The terminal failure text is the trimmed output of the first such failure, if there is one. */
  lemma {:induction false} FailureTextIsFirst(outcomes: seq<Outcome>)
    ensures TerminalFailureText(outcomes).None? <==> forall j :: 0 <= j < |outcomes| ==> !FailsForGood(outcomes[j])
    ensures TerminalFailureText(outcomes).Some? ==>
              exists j :: && 0 <= j < |outcomes| && FailsForGood(outcomes[j]) && (forall i :: 0 <= i < j ==> !FailsForGood(outcomes[i]))
                          && TerminalFailureText(outcomes).value == TrimBy(outcomes[j].output, IsScriptWhitespace)
  {
    hide FailsForGood, IsScriptWhitespace, TrimBy;
    if outcomes != [] {
      var rest := outcomes[1..];
      FirstFailure(outcomes);
      if !FailsForGood(outcomes[0]) {
        FailureTextIsFirst(rest);
        if TerminalFailureText(rest).Some? {
          var j :| && 0 <= j < |rest| && FailsForGood(rest[j]) && (forall i :: 0 <= i < j ==> !FailsForGood(rest[i]))
                   && TerminalFailureText(rest).value == TrimBy(rest[j].output, IsScriptWhitespace);
          forall i | 0 <= i < j + 1 ensures !FailsForGood(outcomes[i]) {
            assert i > 0 ==> outcomes[i] == rest[i - 1];
          }
          assert FailsForGood(outcomes[j + 1]);
        } else {
          forall j | 0 <= j < |outcomes| ensures !FailsForGood(outcomes[j]) {
            assert j > 0 ==> outcomes[j] == rest[j - 1];
          }
        }
      }
    }
  }

  lemma FirstFailure(outcomes: seq<Outcome>)
    requires outcomes != []
    ensures FailsForGood(outcomes[0]) ==> TerminalFailureText(outcomes) == Some(TrimBy(outcomes[0].output, IsScriptWhitespace))
    ensures !FailsForGood(outcomes[0]) ==> TerminalFailureText(outcomes) == TerminalFailureText(outcomes[1..])
  {
    hide IsScriptWhitespace, TrimBy;
    OutputNotBlank(outcomes[0]);
  }

  /** A success that has delivered what was asked for, or that owns the final text and has one. */
  predicate SettlesTheRun(o: Outcome) {
    && o.success && o.details.Details?
    && (o.details.artifactDelivery
        || (o.details.ownsFinalText && exists i :: 0 <= i < |o.output| && !IsScriptWhitespace(o.output[i])))
  }

  predicate FailedTelegramFile(source: string, use: Use, outcome: Outcome) {
    source == "telegram" && use.name == "telegram_send_file" && !outcome.success
  }

  /** The round neither failed for good nor settled the run, and its tokens leave room for another call. */
  ghost predicate GoesOn(source: string, script: seq<RoundInput>, q: nat)
    requires Scripted(script) && q < |script|
  {
    var input := script[q];
    var uses := UsesOf(input.chunks);
    && input.end.Finished? && uses != []
    && (forall j :: 0 <= j < |input.outcomes| ==> !FailsForGood(input.outcomes[j]) && !SettlesTheRun(input.outcomes[j]))
    && (forall j :: 0 <= j < |uses| ==> !FailedTelegramFile(source, uses[j], input.outcomes[j]))
    && TokensBefore(script, q + 1) <= 150000
  }

  lemma StopMeans(source: string, uses: seq<Use>, outcomes: seq<Outcome>)
    requires |uses| == |outcomes|
    ensures StopsAfterRound(source, uses, outcomes) <==>
            || (exists j :: 0 <= j < |outcomes| && SettlesTheRun(outcomes[j]))
            || (exists j :: 0 <= j < |uses| && FailedTelegramFile(source, uses[j], outcomes[j]))
  {
    hide IsScriptWhitespace, TrimmedOutput;
    forall j | 0 <= j < |outcomes| ensures TerminatesRun(outcomes[j]) <==> SettlesTheRun(outcomes[j]) {
      OutputNotBlank(outcomes[j]);
    }
    if j :| 0 <= j < |uses| && uses[j].name == "telegram_send_file" && !outcomes[j].success && source == "telegram" {
      assert FailedTelegramFile(source, uses[j], outcomes[j]);
    }
  }

  /** What follows the tools: another round exactly if the round goes on. */
  lemma AfterToolsGoesOn(round: nat, messages: seq<Message>, source: string, script: seq<RoundInput>)
    requires Scripted(script) && round < MAX_TOOL_ROUNDS
    requires script[round].end.Finished? && UsesOf(script[round].chunks) != []
    ensures var tokens := TokensBefore(script, round + 1);
            var outcomes := script[round].outcomes;
            var r := AfterTools(round, messages, tokens, source, script);
            if GoesOn(source, script, round) then
              r == After(Recovery(RecoveryNames(UsesOf(script[round].chunks), outcomes)), Rounds(round + 1, messages, tokens, source, script))
            else
              && Calls(r.actions) == [] && r.delivered == TerminalFailureText(outcomes)
              && r.actions != [] && r.actions[|r.actions| - 1] == Yield(Done(tokens))
  {
    hide Rounds, RecoveryNames, UsesOf, TerminalFailureText, StopsAfterRound, FailsForGood, SettlesTheRun, FailedTelegramFile, Calls;
    var uses, outcomes := UsesOf(script[round].chunks), script[round].outcomes;
    StopMeans(source, uses, outcomes);
    FailureTextIsFirst(outcomes);
    if !GoesOn(source, script, round) {
      NoCallsIn(AfterTools(round, messages, TokensBefore(script, round + 1), source, script).actions);
    }
  }

  /**
   * After the tools of a round a recovery is signalled, before anything else happens, exactly if a tool calls for it
   * and the round neither failed for good nor settled the run, whether or not tokens are left for another call.
   */
  lemma RecoveryIsSignalled(round: nat, messages: seq<Message>, tokens: nat, source: string, script: seq<RoundInput>)
    requires Scripted(script) && round < MAX_TOOL_ROUNDS
    ensures var uses, outcomes := UsesOf(script[round].chunks), script[round].outcomes;
            var actions := AfterTools(round, messages, tokens, source, script).actions;
            (actions != [] && actions[0].Yield? && actions[0].chunk.ExecutionRecovery?) <==>
              && (exists j :: 0 <= j < |uses| && CallsForRecovery(uses[j], outcomes[j]))
              && (forall j :: 0 <= j < |uses| ==>
                    && !FailsForGood(outcomes[j]) && !SettlesTheRun(outcomes[j])
                    && !FailedTelegramFile(source, uses[j], outcomes[j]))
  {
    hide AfterCall, RecoveryNames, UsesOf, TerminalFailureText, StopsAfterRound;
    hide FailsForGood, SettlesTheRun, FailedTelegramFile, CallsForRecovery;
    var uses, outcomes := UsesOf(script[round].chunks), script[round].outcomes;
    StopMeans(source, uses, outcomes);
    FailureTextIsFirst(outcomes);
    AnyRecovery(uses, outcomes);
  }

  lemma AnyRecovery(uses: seq<Use>, outcomes: seq<Outcome>)
    requires |uses| == |outcomes|
    ensures RecoveryNames(uses, outcomes) != [] <==> exists j :: 0 <= j < |uses| && CallsForRecovery(uses[j], outcomes[j])
  {
    hide CallsForRecovery, RecoveryNames;
    if RecoveryNames(uses, outcomes) != [] {
      RecoveryNamesAre(uses, outcomes, RecoveryNames(uses, outcomes)[0]);
    }
    if j :| 0 <= j < |uses| && CallsForRecovery(uses[j], outcomes[j]) {
      RecoveryNamesAre(uses, outcomes, uses[j].name);
    }
  }

  // ----- Rounds -----

  /** The run calls the model in round r: no abort was seen up to it, and every round before it went on. */
  ghost predicate Called(source: string, script: seq<RoundInput>, round: nat, r: nat)
    requires Scripted(script)
  {
    && r < 20
    && (forall q :: round <= q <= r ==> !script[q].abortedBefore)
    && (forall q :: round <= q < r ==> GoesOn(source, script, q))
  }

  /** The text that is delivered if round r is the last one called. */
  function LastText(script: seq<RoundInput>, r: nat): Option<string>
    requires Scripted(script) && r < |script|
  {
    var input := script[r];
    if !input.end.Finished? then None
    else if UsesOf(input.chunks) != [] then TerminalFailureText(input.outcomes)
    else if JoinedDeltas(input.chunks) == "" then None
    else Some(JoinedDeltas(input.chunks))
  }

  lemma CalledNext(source: string, script: seq<RoundInput>, round: nat, r: nat)
    requires Scripted(script) && round < r < 20
    ensures Called(source, script, round, r) <==>
            !script[round].abortedBefore && GoesOn(source, script, round) && Called(source, script, round + 1, r)
  {
    hide GoesOn;
  }

  /** A run calls the model in a round exactly if no abort was seen and every earlier round went on. */
  lemma {:induction false} RoundsCall(round: nat, messages: seq<Message>, source: string, script: seq<RoundInput>, r: nat)
    requires Scripted(script) && round <= MAX_TOOL_ROUNDS && round <= r
    ensures r in Calls(Rounds(round, messages, TokensBefore(script, round), source, script).actions) <==>
            Called(source, script, round, r)
    decreases MAX_TOOL_ROUNDS - round
  {
    hide AfterCall, Calls, GoesOn, UsesOf, TextOf, TokensOf, ToolRoundMessages;
    var tokens := TokensBefore(script, round);
    var actions := Rounds(round, messages, tokens, source, script).actions;
    if round == MAX_TOOL_ROUNDS || script[round].abortedBefore {
      NoCallsIn(actions);
    } else {
      var rest := AfterCall(round, messages, tokens, source, script);
      OneCall(round, messages);
      CallsConcat([CallModel(round, messages)], rest.actions);
      var next := messages + if |script[round].outcomes| == |UsesOf(script[round].chunks)| then
        ToolRoundMessages(TextOf(script[round].chunks), UsesOf(script[round].chunks), script[round].outcomes) else [];
      AfterCallCalls(round, messages, source, script);
      if GoesOn(source, script, round) {
        RoundsCall(round + 1, next, source, script, if r > round then r else r + 1);
        EarlierNotCalled(round, next, source, script);
      }
      if round < r < 20 {
        CalledNext(source, script, round, r);
      }
    }
  }

  /** Later rounds do not call in an earlier one. */
  lemma {:induction false} EarlierNotCalled(round: nat, messages: seq<Message>, source: string, script: seq<RoundInput>)
    requires Scripted(script) && round < MAX_TOOL_ROUNDS && GoesOn(source, script, round)
    ensures round !in Calls(Rounds(round + 1, messages, TokensBefore(script, round + 1), source, script).actions)
  {
    hide Rounds, Calls;
    RoundsCallsInBudget(round + 1, messages, TokensBefore(script, round + 1), source, script);
  }

  /** The calls after the model's answer in a round: those of the next rounds if it goes on, and none otherwise. */
  lemma {:induction false} AfterCallCalls(round: nat, messages: seq<Message>, source: string, script: seq<RoundInput>)
    requires Scripted(script) && round < MAX_TOOL_ROUNDS
    ensures var calls := Calls(AfterCall(round, messages, TokensBefore(script, round), source, script).actions);
            if GoesOn(source, script, round) then
              calls == Calls(Rounds(round + 1, messages + ToolRoundMessages(TextOf(script[round].chunks), UsesOf(script[round].chunks), script[round].outcomes),
                                    TokensBefore(script, round + 1), source, script).actions)
            else calls == []
  {
    hide AfterTools, Rounds, Calls, UsesOf, TextOf, TokensOf, ToolChunks, RecoveryNames, TerminalFailureText, FailsForGood, SettlesTheRun, FailedTelegramFile;
    var input := script[round];
    var text, uses := TextOf(input.chunks), UsesOf(input.chunks);
    var tokens, total := TokensBefore(script, round), TokensBefore(script, round + 1);
    var r := AfterCall(round, messages, tokens, source, script);
    if !input.end.Finished? || uses == [] {
      NoCallsIn(r.actions);
    } else {
      var next := messages + ToolRoundMessages(text, uses, input.outcomes);
      var first, rest := ToolRoundActions(text, uses, input.outcomes), AfterTools(round, next, total, source, script);
      NoCallsInToolChunks(uses, input.outcomes);
      NoCallsIn(first);
      CallsConcat(first, rest.actions);
      assert [] + Calls(rest.actions) == Calls(rest.actions);
      AfterToolsGoesOn(round, next, source, script);
      if GoesOn(source, script, round) {
        var recovery, later := Recovery(RecoveryNames(uses, input.outcomes)), Rounds(round + 1, next, total, source, script);
        NoCallsIn(recovery);
        CallsConcat(recovery, later.actions);
        assert [] + Calls(later.actions) == Calls(later.actions);
      }
    }
  }

  // ----- How a run ends -----

  /** A round that goes on leads, after some actions, to the next one with more messages and the summed tokens. */
  lemma {:induction false} RoundLeadsOn(round: nat, messages: seq<Message>, source: string, script: seq<RoundInput>)
    returns (first: seq<Action>, next: seq<Message>)
    requires Scripted(script) && round < MAX_TOOL_ROUNDS && !script[round].abortedBefore && GoesOn(source, script, round)
    ensures Rounds(round, messages, TokensBefore(script, round), source, script) ==
            After(first, Rounds(round + 1, next, TokensBefore(script, round + 1), source, script))
  {
    hide AfterTools, UsesOf, TextOf, TokensOf, ToolRoundActions, ToolRoundMessages, RecoveryNames;
    hide TerminalFailureText, FailsForGood, SettlesTheRun, FailedTelegramFile;
    var input := script[round];
    var text, uses := TextOf(input.chunks), UsesOf(input.chunks);
    next := messages + ToolRoundMessages(text, uses, input.outcomes);
    var tools, recovery := ToolRoundActions(text, uses, input.outcomes), Recovery(RecoveryNames(uses, input.outcomes));
    var rest := Rounds(round + 1, next, TokensBefore(script, round + 1), source, script);
    AfterToolsGoesOn(round, next, source, script);
    AfterAfter(tools, recovery, rest);
    AfterAfter([CallModel(round, messages)], tools + recovery, rest);
    first := [CallModel(round, messages)] + (tools + recovery);
  }

  /** The last chunk if round r is the last one called. */
  ghost predicate EndsAfterCall(script: seq<RoundInput>, r: nat, last: AgentChunk)
    requires Scripted(script) && r < |script|
  {
    match script[r].end
    case FailedAborted => last == Error("Aborted")
    case Failed(reason, message) => last == AiRecovery(reason, message)
    case Finished => last == Done(TokensBefore(script, r + 1))
  }

  /** A delivered text is the last thing before the final chunk: shown first, then stored as the assistant's. */
  ghost predicate DeliversLast(r: Result) {
    var n := |r.actions|;
    r.delivered.Some? ==>
      && n >= 3 && r.actions[n - 3] == Yield(TextChunk(r.delivered.value))
      && r.actions[n - 2] == Insert(Row(Assistant, r.delivered.value, None)) && r.actions[n - 1].Yield?
  }

  lemma DeliversAfter(first: seq<Action>, r: Result)
    requires DeliversLast(r)
    ensures DeliversLast(After(first, r))
  {}

  lemma AfterToolsDelivers(round: nat, messages: seq<Message>, source: string, script: seq<RoundInput>)
    requires Scripted(script) && round < MAX_TOOL_ROUNDS && !GoesOn(source, script, round)
    requires script[round].end.Finished? && UsesOf(script[round].chunks) != []
    ensures DeliversLast(AfterTools(round, messages, TokensBefore(script, round + 1), source, script))
  {
    hide Rounds, RecoveryNames, UsesOf, TerminalFailureText, StopsAfterRound, FailsForGood, SettlesTheRun, FailedTelegramFile;
    var uses, outcomes := UsesOf(script[round].chunks), script[round].outcomes;
    StopMeans(source, uses, outcomes);
    FailureTextIsFirst(outcomes);
  }

  lemma {:induction false} LastRoundEnds(round: nat, messages: seq<Message>, source: string, script: seq<RoundInput>)
    requires Scripted(script) && round < MAX_TOOL_ROUNDS && !script[round].abortedBefore && !GoesOn(source, script, round)
    ensures var r := Rounds(round, messages, TokensBefore(script, round), source, script);
            && r.delivered == LastText(script, round)
            && r.actions != [] && r.actions[|r.actions| - 1].Yield? && EndsAfterCall(script, round, r.actions[|r.actions| - 1].chunk)
            && DeliversLast(r)
  {
    hide AfterTools, UsesOf, TextOf, TokensOf, ToolRoundActions, ToolRoundMessages, JoinedDeltas, Calls;
    hide TerminalFailureText, FailsForGood, SettlesTheRun, FailedTelegramFile;
    var input := script[round];
    TextIsJoinedDeltas(input.chunks);
    if input.end.Finished? && UsesOf(input.chunks) != [] {
      var next := messages + ToolRoundMessages(TextOf(input.chunks), UsesOf(input.chunks), input.outcomes);
      AfterToolsGoesOn(round, next, source, script);
      AfterToolsDelivers(round, next, source, script);
    }
  }

  lemma {:induction false} RoundsEnd(round: nat, messages: seq<Message>, source: string, script: seq<RoundInput>, last: nat)
    requires Scripted(script) && round <= last && Called(source, script, round, last) && !GoesOn(source, script, last)
    ensures var r := Rounds(round, messages, TokensBefore(script, round), source, script);
            && r.delivered == LastText(script, last)
            && r.actions != [] && r.actions[|r.actions| - 1].Yield? && EndsAfterCall(script, last, r.actions[|r.actions| - 1].chunk)
            && DeliversLast(r)
    decreases last - round
  {
    hide Rounds, GoesOn, LastText, EndsAfterCall, TokensBefore, DeliversLast;
    if round == last {
      LastRoundEnds(round, messages, source, script);
    } else {
      CalledNext(source, script, round, last);
      var first, next := RoundLeadsOn(round, messages, source, script);
      RoundsEnd(round + 1, next, source, script, last);
      DeliversAfter(first, Rounds(round + 1, next, TokensBefore(script, round + 1), source, script));
    }
  }

  lemma {:induction false} RoundsStop(round: nat, messages: seq<Message>, source: string, script: seq<RoundInput>, stop: nat)
    requires Scripted(script) && round <= stop <= 20 && (stop < 20 ==> script[stop].abortedBefore)
    requires forall q :: round <= q < stop ==> !script[q].abortedBefore && GoesOn(source, script, q)
    ensures var r := Rounds(round, messages, TokensBefore(script, round), source, script);
            && r.delivered == None && r.actions != []
            && r.actions[|r.actions| - 1] == Yield(if stop < 20 then Error("Aborted by user") else Done(TokensBefore(script, 20)))
    decreases stop - round
  {
    hide AfterCall, GoesOn, TokensBefore;
    if round < stop {
      var first, next := RoundLeadsOn(round, messages, source, script);
      RoundsStop(round + 1, next, source, script, stop);
    }
  }

  /**
   * A whole run, told by its script. It calls the model in round r exactly if no abort was seen up to it and every
   * earlier round went on. If the last called round does not go on, the run delivers that round's joined deltas, or
   * the output of the first tool that failed for good, and ends with the tokens of all called rounds, or with the
   * stream's failure.
   */
  lemma RunFollowsScript(log: seq<Row>, userMessage: string, source: string, script: seq<RoundInput>, r: nat)
    requires Scripted(script)
    ensures var run := Run(log, userMessage, source, script);
            && (r in Calls(run.actions) <==> Called(source, script, 0, r))
            && (Called(source, script, 0, r) && !GoesOn(source, script, r) ==>
                  && run.delivered == LastText(script, r)
                  && run.actions != [] && run.actions[|run.actions| - 1].Yield?
                  && EndsAfterCall(script, r, run.actions[|run.actions| - 1].chunk)
                  && DeliversLast(run))
  {
    hide Rounds, Calls, Sanitize, GoesOn, LastText, EndsAfterCall, DeliversLast;
    var start := Sanitize(LoadAll(log)) + [Load(UserRow(userMessage))];
    var rest := Rounds(0, start, 0, source, script);
    NoCallsIn([Insert(UserRow(userMessage))]);
    CallsConcat([Insert(UserRow(userMessage))], rest.actions);
    assert [] + Calls(rest.actions) == Calls(rest.actions);
    RoundsCall(0, start, source, script, r);
    if Called(source, script, 0, r) && !GoesOn(source, script, r) {
      RoundsEnd(0, start, source, script, r);
      DeliversAfter([Insert(UserRow(userMessage))], rest);
    }
  }

  /** A run that is aborted between rounds, or that uses up its rounds, delivers no text. */
  lemma RunStopsBetweenRounds(log: seq<Row>, userMessage: string, source: string, script: seq<RoundInput>, stop: nat)
    requires Scripted(script) && stop <= 20 && (stop < 20 ==> script[stop].abortedBefore)
    requires forall q :: 0 <= q < stop ==> !script[q].abortedBefore && GoesOn(source, script, q)
    ensures var run := Run(log, userMessage, source, script);
            && run.delivered == None && run.actions != []
            && run.actions[|run.actions| - 1] == Yield(if stop < 20 then Error("Aborted by user") else Done(TokensBefore(script, 20)))
  {
    hide Rounds, Sanitize, GoesOn;
    RoundsStop(0, Sanitize(LoadAll(log)) + [Load(UserRow(userMessage))], source, script, stop);
  }

  /** A stream that ends without tool uses in the first round is delivered delta for delta. */
  lemma FirstRoundDeliversItsText(log: seq<Row>, userMessage: string, source: string, script: seq<RoundInput>)
    requires Scripted(script) && !script[0].abortedBefore && script[0].end.Finished? && UsesOf(script[0].chunks) == []
    requires JoinedDeltas(script[0].chunks) != ""
    ensures Run(log, userMessage, source, script).delivered == Some(JoinedDeltas(script[0].chunks))
  {
    hide Run, JoinedDeltas, UsesOf;
    RunFollowsScript(log, userMessage, source, script, 0);
  }

  /** A run first stores the user's message, and the first model call ends with it. */
  lemma RunStartsWithTheUser(log: seq<Row>, userMessage: string, source: string, script: seq<RoundInput>)
    requires Scripted(script)
    ensures var actions := Run(log, userMessage, source, script).actions;
            && |actions| >= 2 && actions[0] == Insert(Row(User, userMessage, None))
            && (!script[0].abortedBefore ==>
                  && actions[1].CallModel? && actions[1].round == 0
                  && actions[1].messages == Sanitize(LoadAll(log)) + [Message(User, Plain(userMessage))])
  {
    hide AfterCall, Sanitize;
  }
}
