/** What holds over whole runs of the agent, and over sessions of runs that may each be abandoned at any point. */
module AgentSession {
  import opened Wrappers
  import opened Conversation
  import opened AgentRun

  // ----- What the actions of a round store -----

  lemma {:induction false} ToolChunksStoreNothing(uses: seq<Use>, outcomes: seq<Outcome>)
    requires |uses| == |outcomes|
    ensures RowsOf(ToolChunks(uses, outcomes)) == []
  {
    if uses != [] {
      var front := ToolChunks(uses[..|uses| - 1], outcomes[..|uses| - 1]);
      var a := Yield(ToolStart(uses[|uses| - 1].name, uses[|uses| - 1].input));
      var b := Yield(ToolEnd(uses[|uses| - 1].name, outcomes[|uses| - 1].success, outcomes[|uses| - 1].output));
      ToolChunksStoreNothing(uses[..|uses| - 1], outcomes[..|uses| - 1]);
      RowsConcat(front, [a, b]);
      TwoYieldsStoreNothing(a, b);
    }
  }

  lemma TwoYieldsStoreNothing(a: Action, b: Action)
    requires !a.Insert? && !b.Insert?
    ensures RowsOf([a, b]) == []
  {
    RowsConcat([a], [b]);
    OneAction(a);
    OneAction(b);
  }

  lemma OneAction(a: Action)
    ensures RowsOf([a]) == if a.Insert? then [a.row] else []
  {
    assert [a][..0] == [];
  }

  lemma ToolRoundStores(text: string, uses: seq<Use>, outcomes: seq<Outcome>)
    requires |uses| == |outcomes|
    ensures RowsOf(ToolRoundActions(text, uses, outcomes)) == ToolRoundRows(text, uses, outcomes)
    ensures LoadAll(RowsOf(ToolRoundActions(text, uses, outcomes))) == ToolRoundMessages(text, uses, outcomes)
  {
    hide ToolChunks, CallContent, ResultBlocks, RowsOf;
    var rows := ToolRoundRows(text, uses, outcomes);
    var chunks := ToolChunks(uses, outcomes);
    RowsConcat([Insert(rows[0])] + chunks, [Insert(rows[1])]);
    RowsConcat([Insert(rows[0])], chunks);
    ToolChunksStoreNothing(uses, outcomes);
    OneAction(Insert(rows[0]));
    OneAction(Insert(rows[1]));
  }

  function Ids(uses: seq<Use>): seq<string> {
    seq(|uses|, i requires 0 <= i < |uses| => uses[i].id)
  }

  lemma {:induction false} UseIdsOfBlocks(uses: seq<Use>)
    ensures UseIds(UseBlocks(uses)) == Ids(uses)
  {
    if uses != [] {
      UseIdsOfBlocks(uses[1..]);
      assert UseBlocks(uses)[1..] == UseBlocks(uses[1..]);
      assert Ids(uses) == [uses[0].id] + Ids(uses[1..]);
    }
  }

  lemma {:induction false} ResultIdsOfBlocks(uses: seq<Use>, outcomes: seq<Outcome>)
    requires |uses| == |outcomes|
    ensures ResultIds(ResultBlocks(uses, outcomes)) == Ids(uses)
  {
    if uses != [] {
      ResultIdsOfBlocks(uses[1..], outcomes[1..]);
      assert ResultBlocks(uses, outcomes)[1..] == ResultBlocks(uses[1..], outcomes[1..]);
      assert Ids(uses) == [uses[0].id] + Ids(uses[1..]);
    }
  }

  /** The results of a round answer its call. */
  lemma ToolRoundIsPaired(text: string, uses: seq<Use>, outcomes: seq<Outcome>)
    requires |uses| == |outcomes| && uses != []
    ensures ExactlyPaired(ToolRoundMessages(text, uses, outcomes))
  {
    UseIdsOfBlocks(uses);
    ResultIdsOfBlocks(uses, outcomes);
    var content, results := CallContent(text, uses), ResultBlocks(uses, outcomes);
    assert UseIds(content) == Ids(uses) by {
      if text != "" {
        assert content[1..] == UseBlocks(uses);
      } else {
        assert content == UseBlocks(uses);
      }
    }
    assert content[|content| - 1].ToolUse?;
    assert results[0].ToolResult?;
    var m := ToolRoundMessages(text, uses, outcomes);
    assert Answers(m[0], m[1]);
    assert !IsToolReply(m[0]);
  }

  lemma PlainIsPaired(text: string, role: Role)
    ensures ExactlyPaired([Message(role, Plain(text))])
  {}

  // ----- Memory and log stay in step within a run -----

  function DeliveredMessages(delivered: Option<string>): seq<Message> {
    match delivered case Some(text) => [Load(AssistantRow(text))] case None => []
  }

  lemma DeliverStores(text: string, last: Action)
    requires !last.Insert?
    ensures RowsOf(Deliver(text) + [last]) == [AssistantRow(text)]
  {
    RowsConcat(Deliver(text), [last]);
    RowsConcat([Yield(TextChunk(text))], [Insert(AssistantRow(text))]);
    OneAction(Yield(TextChunk(text)));
    OneAction(Insert(AssistantRow(text)));
    OneAction(last);
  }

  /** What a finished continuation of a run has stored is paired, and is what it added to memory plus the delivered text. */
  ghost predicate Settles(messages: seq<Message>, r: Result) {
    var stored := LoadAll(RowsOf(r.actions));
    ExactlyPaired(stored) && messages + stored == r.messages + DeliveredMessages(r.delivered)
  }

  lemma SettlesAtOnce(messages: seq<Message>, last: Action)
    requires !last.Insert?
    ensures Settles(messages, Result([last], messages, None))
  {
    OneAction(last);
  }

  lemma SettlesWithText(messages: seq<Message>, text: string, last: Action)
    requires !last.Insert?
    ensures Settles(messages, Result(Deliver(text) + [last], messages, Some(text)))
  {
    DeliverStores(text, last);
    PlainIsPaired(text, Assistant);
  }

  lemma SettlesAfter(messages: seq<Message>, first: seq<Action>, next: seq<Message>, rest: Result)
    requires Settles(next, rest)
    requires next == messages + LoadAll(RowsOf(first)) && ExactlyPaired(LoadAll(RowsOf(first)))
    ensures Settles(messages, After(first, rest))
  {
    RowsConcat(first, rest.actions);
    LoadConcat(RowsOf(first), RowsOf(rest.actions));
    ExactlyPairedConcat(LoadAll(RowsOf(first)), LoadAll(RowsOf(rest.actions)));
    assert messages + (LoadAll(RowsOf(first)) + LoadAll(RowsOf(rest.actions))) == next + LoadAll(RowsOf(rest.actions));
  }

  lemma SettlesAfterQuiet(messages: seq<Message>, first: seq<Action>, rest: Result)
    requires RowsOf(first) == [] && Settles(messages, rest)
    ensures Settles(messages, After(first, rest))
  {
    assert messages + LoadAll(RowsOf(first)) == messages;
    SettlesAfter(messages, first, messages, rest);
  }

  lemma {:induction false} RoundsSettle(round: nat, messages: seq<Message>, tokens: nat, source: string, script: seq<RoundInput>)
    requires Scripted(script) && round <= MAX_TOOL_ROUNDS
    ensures Settles(messages, Rounds(round, messages, tokens, source, script))
    decreases MAX_TOOL_ROUNDS - round, 2
  {
    hide Settles, AfterCall, RowsOf;
    if round == MAX_TOOL_ROUNDS {
      SettlesAtOnce(messages, Yield(Done(tokens)));
    } else if script[round].abortedBefore {
      SettlesAtOnce(messages, Yield(Error("Aborted by user")));
    } else {
      OneAction(CallModel(round, messages));
      AfterCallSettles(round, messages, tokens, source, script);
      SettlesAfterQuiet(messages, [CallModel(round, messages)], AfterCall(round, messages, tokens, source, script));
    }
  }

  lemma {:induction false} AfterCallSettles(round: nat, messages: seq<Message>, tokens: nat, source: string, script: seq<RoundInput>)
    requires Scripted(script) && round < MAX_TOOL_ROUNDS
    ensures Settles(messages, AfterCall(round, messages, tokens, source, script))
    decreases MAX_TOOL_ROUNDS - round, 1
  {
    hide Settles, AfterTools, RowsOf, TextOf, UsesOf, TokensOf, ToolRoundActions, ToolRoundMessages;
    var input := script[round];
    var text, uses, total := TextOf(input.chunks), UsesOf(input.chunks), tokens + TokensOf(input.chunks);
    match input.end
    case FailedAborted => SettlesAtOnce(messages, Yield(Error("Aborted")));
    case Failed(reason, message) => SettlesAtOnce(messages, Yield(AiRecovery(reason, message)));
    case Finished =>
      if uses == [] {
        SettlesAtOnce(messages, Yield(Done(total)));
        SettlesWithText(messages, text, Yield(Done(total)));
      } else {
        var next := messages + ToolRoundMessages(text, uses, input.outcomes);
        ToolRoundStores(text, uses, input.outcomes);
        ToolRoundIsPaired(text, uses, input.outcomes);
        AfterToolsSettles(round, next, total, source, script);
        SettlesAfter(messages, ToolRoundActions(text, uses, input.outcomes), next, AfterTools(round, next, total, source, script));
      }
  }

  lemma RecoveryStoresNothing(toolNames: seq<string>)
    ensures RowsOf(Recovery(toolNames)) == []
  {
    OneAction(Yield(ExecutionRecovery(toolNames)));
  }

  lemma {:induction false} AfterToolsSettles(round: nat, messages: seq<Message>, tokens: nat, source: string, script: seq<RoundInput>)
    requires Scripted(script) && round < MAX_TOOL_ROUNDS
    ensures Settles(messages, AfterTools(round, messages, tokens, source, script))
    decreases MAX_TOOL_ROUNDS - round, 0
  {
    hide Settles, Rounds, RowsOf, UsesOf, RecoveryNames, StopsAfterRound, TerminalFailureText, Recovery;
    var uses, outcomes := UsesOf(script[round].chunks), script[round].outcomes;
    var failure := TerminalFailureText(outcomes);
    SettlesAtOnce(messages, Yield(Done(tokens)));
    if failure.Some? {
      SettlesWithText(messages, failure.value, Yield(Done(tokens)));
    } else if !StopsAfterRound(source, uses, outcomes) {
      RoundsSettle(round + 1, messages, tokens, source, script);
      RecoveryStoresNothing(RecoveryNames(uses, outcomes));
      var rest := if tokens > MAX_CONTEXT_TOKENS then Result([Yield(Done(tokens))], messages, None)
                  else Rounds(round + 1, messages, tokens, source, script);
      SettlesAfterQuiet(messages, Recovery(RecoveryNames(uses, outcomes)), rest);
    }
  }

  // ----- What each model call sees -----

  /** Every model call in a continuation gets the messages it started from, followed by everything stored since, paired. */
  ghost predicate CallsSeeLog(messages: seq<Message>, r: Result) {
    forall i :: 0 <= i < |r.actions| && r.actions[i].CallModel? ==>
      && r.actions[i].messages == messages + LoadAll(RowsOf(r.actions[..i]))
      && ExactlyPaired(LoadAll(RowsOf(r.actions[..i])))
  }

  ghost predicate NoCalls(actions: seq<Action>) {
    forall i :: 0 <= i < |actions| ==> !actions[i].CallModel?
  }

  lemma NoCallsSeeLog(messages: seq<Message>, r: Result)
    requires NoCalls(r.actions)
    ensures CallsSeeLog(messages, r)
  {}

  lemma CallsSeeLogAfter(messages: seq<Message>, first: seq<Action>, next: seq<Message>, rest: Result)
    requires NoCalls(first) && CallsSeeLog(next, rest)
    requires next == messages + LoadAll(RowsOf(first)) && ExactlyPaired(LoadAll(RowsOf(first)))
    ensures CallsSeeLog(messages, After(first, rest))
  {
    hide RowsOf, ExactlyPaired, LoadAll;
    var r := After(first, rest);
    forall i | 0 <= i < |r.actions| && r.actions[i].CallModel?
      ensures r.actions[i].messages == messages + LoadAll(RowsOf(r.actions[..i]))
      ensures ExactlyPaired(LoadAll(RowsOf(r.actions[..i])))
    {
      var k := i - |first|;
      assert r.actions[i] == rest.actions[k];
      assert r.actions[..i] == first + rest.actions[..k];
      RowsConcat(first, rest.actions[..k]);
      LoadConcat(RowsOf(first), RowsOf(rest.actions[..k]));
      ExactlyPairedConcat(LoadAll(RowsOf(first)), LoadAll(RowsOf(rest.actions[..k])));
      Regrouped(messages, LoadAll(RowsOf(first)), LoadAll(RowsOf(rest.actions[..k])));
    }
  }

  lemma Regrouped<T>(a: seq<T>, b: seq<T>, c: seq<T>)
    ensures a + (b + c) == (a + b) + c
  {}

  lemma CallThenSeeLog(round: nat, messages: seq<Message>, rest: Result)
    requires CallsSeeLog(messages, rest)
    ensures CallsSeeLog(messages, After([CallModel(round, messages)], rest))
  {
    hide RowsOf;
    var call := [CallModel(round, messages)];
    var r := After(call, rest);
    forall i | 0 <= i < |r.actions| && r.actions[i].CallModel?
      ensures r.actions[i].messages == messages + LoadAll(RowsOf(r.actions[..i]))
      ensures ExactlyPaired(LoadAll(RowsOf(r.actions[..i])))
    {
      if i == 0 {
        assert r.actions[..0] == [];
        EmptyRows();
      } else {
        assert r.actions[i] == rest.actions[i - 1];
        assert r.actions[..i] == call + rest.actions[..i - 1];
        RowsConcat(call, rest.actions[..i - 1]);
        OneAction(call[0]);
        assert RowsOf(call) + RowsOf(rest.actions[..i - 1]) == RowsOf(rest.actions[..i - 1]);
      }
    }
  }

  lemma {:induction false} ToolChunksMakeNoCalls(uses: seq<Use>, outcomes: seq<Outcome>)
    requires |uses| == |outcomes|
    ensures NoCalls(ToolChunks(uses, outcomes))
  {
    if uses != [] {
      ToolChunksMakeNoCalls(uses[..|uses| - 1], outcomes[..|uses| - 1]);
    }
  }

  lemma {:induction false} RoundsCallsSeeLog(round: nat, messages: seq<Message>, tokens: nat, source: string, script: seq<RoundInput>)
    requires Scripted(script) && round <= MAX_TOOL_ROUNDS
    ensures CallsSeeLog(messages, Rounds(round, messages, tokens, source, script))
    decreases MAX_TOOL_ROUNDS - round, 2
  {
    hide CallsSeeLog, AfterCall;
    if round == MAX_TOOL_ROUNDS || script[round].abortedBefore {
      NoCallsSeeLog(messages, Rounds(round, messages, tokens, source, script));
    } else {
      AfterCallCallsSeeLog(round, messages, tokens, source, script);
      CallThenSeeLog(round, messages, AfterCall(round, messages, tokens, source, script));
    }
  }

  lemma {:induction false} AfterCallCallsSeeLog(round: nat, messages: seq<Message>, tokens: nat, source: string, script: seq<RoundInput>)
    requires Scripted(script) && round < MAX_TOOL_ROUNDS
    ensures CallsSeeLog(messages, AfterCall(round, messages, tokens, source, script))
    decreases MAX_TOOL_ROUNDS - round, 1
  {
    hide CallsSeeLog, AfterTools, RowsOf, TextOf, UsesOf, TokensOf, ToolChunks;
    var input := script[round];
    var text, uses, total := TextOf(input.chunks), UsesOf(input.chunks), tokens + TokensOf(input.chunks);
    if !input.end.Finished? || uses == [] {
      NoCallsSeeLog(messages, AfterCall(round, messages, tokens, source, script));
    } else {
      var next := messages + ToolRoundMessages(text, uses, input.outcomes);
      ToolRoundStores(text, uses, input.outcomes);
      ToolRoundIsPaired(text, uses, input.outcomes);
      ToolChunksMakeNoCalls(uses, input.outcomes);
      AfterToolsCallsSeeLog(round, next, total, source, script);
      CallsSeeLogAfter(messages, ToolRoundActions(text, uses, input.outcomes), next, AfterTools(round, next, total, source, script));
    }
  }

  lemma {:induction false} AfterToolsCallsSeeLog(round: nat, messages: seq<Message>, tokens: nat, source: string, script: seq<RoundInput>)
    requires Scripted(script) && round < MAX_TOOL_ROUNDS
    ensures CallsSeeLog(messages, AfterTools(round, messages, tokens, source, script))
    decreases MAX_TOOL_ROUNDS - round, 0
  {
    hide CallsSeeLog, Rounds, RowsOf, UsesOf, RecoveryNames, StopsAfterRound, TerminalFailureText;
    var uses, outcomes := UsesOf(script[round].chunks), script[round].outcomes;
    if TerminalFailureText(outcomes).Some? || StopsAfterRound(source, uses, outcomes) {
      NoCallsSeeLog(messages, AfterTools(round, messages, tokens, source, script));
    } else {
      var rest := if tokens > MAX_CONTEXT_TOKENS then Result([Yield(Done(tokens))], messages, None)
                  else Rounds(round + 1, messages, tokens, source, script);
      if tokens > MAX_CONTEXT_TOKENS {
        NoCallsSeeLog(messages, rest);
      } else {
        RoundsCallsSeeLog(round + 1, messages, tokens, source, script);
      }
      RecoveryStoresNothing(RecoveryNames(uses, outcomes));
      CallsSeeLogAfter(messages, Recovery(RecoveryNames(uses, outcomes)), messages, rest);
    }
  }

  // ----- Sessions of runs, each abandoned at any point -----

  /**
   * A run that got as far as its first `cut` actions, and the plain rows that the delivery code stored
   * between this run and the next.
   */
  datatype SessionRun = SessionRun(userMessage: string, source: string, script: seq<RoundInput>, cut: nat, extra: seq<Row>)

  predicate WellFormed(runs: seq<SessionRun>) {
    forall k :: 0 <= k < |runs| ==>
      Scripted(runs[k].script) && forall i :: 0 <= i < |runs[k].extra| ==> runs[k].extra[i].toolCalls.None?
  }

  function FirstActions(actions: seq<Action>, cut: nat): seq<Action> {
    if cut <= |actions| then actions[..cut] else actions
  }

  /** The stored rows after these runs, one after the other. */
  function SessionLog(runs: seq<SessionRun>): seq<Row>
    requires WellFormed(runs)
  {
    if runs == [] then []
    else
      var log, last := SessionLog(runs[..|runs| - 1]), runs[|runs| - 1];
      log + RowsOf(FirstActions(Run(log, last.userMessage, last.source, last.script).actions, last.cut)) + last.extra
  }

  lemma RunRows(log: seq<Row>, userMessage: string, source: string, script: seq<RoundInput>)
    requires Scripted(script)
    ensures var r := Run(log, userMessage, source, script);
            && ExactlyPaired(LoadAll(RowsOf(r.actions)))
            && Sanitize(LoadAll(log)) + LoadAll(RowsOf(r.actions)) == r.messages + DeliveredMessages(r.delivered)
  {
    hide Rounds, RowsOf, ExactlyPaired, Sanitize;
    var user := UserRow(userMessage);
    var start := Sanitize(LoadAll(log));
    RoundsSettle(0, start + [Load(user)], 0, source, script);
    OneAction(Insert(user));
    PlainIsPaired(userMessage, User);
    assert LoadAll([user]) == [Load(user)];
    SettlesAfter(start, [Insert(user)], start + [Load(user)], Rounds(0, start + [Load(user)], 0, source, script));
  }

  lemma {:induction false} RowsPrefix(actions: seq<Action>, n: nat)
    requires n <= |actions|
    ensures RowsOf(actions[..n]) <= RowsOf(actions)
  {
    RowsConcat(actions[..n], actions[n..]);
    assert actions == actions[..n] + actions[n..];
  }

  lemma LoadPrefix(a: seq<Row>, b: seq<Row>)
    requires a <= b
    ensures LoadAll(a) == LoadAll(b)[..|a|]
  {}

  /** However the runs were cut, every stored tool result message directly follows the call it answers. */
  lemma {:induction false} SessionLogKeepsOrder(runs: seq<SessionRun>)
    requires WellFormed(runs)
    ensures AnswersFollowCalls(LoadAll(SessionLog(runs)))
  {
    hide Run, RowsOf;
    if runs != [] {
      var log, last := SessionLog(runs[..|runs| - 1]), runs[|runs| - 1];
      var actions := Run(log, last.userMessage, last.source, last.script).actions;
      var stored := RowsOf(FirstActions(actions, last.cut));
      SessionLogKeepsOrder(runs[..|runs| - 1]);
      RunRows(log, last.userMessage, last.source, last.script);
      RowsPrefix(actions, if last.cut <= |actions| then last.cut else |actions|);
      assert actions[..|actions|] == actions;
      LoadPrefix(stored, RowsOf(actions));
      AnswersFollowCallsPrefix(LoadAll(RowsOf(actions)), |stored|);
      AnswersFollowCallsConcat(LoadAll(log), LoadAll(stored));
      AnswersFollowCallsConcat(LoadAll(log) + LoadAll(stored), LoadAll(last.extra));
      LoadConcat(log, stored);
      LoadConcat(log + stored, last.extra);
    }
  }

  /** Every model call among the actions gets an exactly paired list: the repair of all that is stored by then. */
  ghost predicate CallsArePaired(log: seq<Row>, actions: seq<Action>) {
    forall i :: 0 <= i < |actions| && actions[i].CallModel? ==>
      && ExactlyPaired(actions[i].messages)
      && actions[i].messages == Sanitize(LoadAll(log + RowsOf(actions[..i])))
  }

  lemma CallIsPaired(log: seq<Row>, actions: seq<Action>, i: nat)
    requires AnswersFollowCalls(LoadAll(log)) && CallsSeeLog(Sanitize(LoadAll(log)), Result(actions, [], None))
    requires i < |actions| && actions[i].CallModel?
    ensures ExactlyPaired(actions[i].messages)
    ensures actions[i].messages == Sanitize(LoadAll(log + RowsOf(actions[..i])))
  {
    hide RowsOf, Sanitize, AnswersFollowCalls, ExactlyPaired;
    var stored := LoadAll(RowsOf(actions[..i]));
    SanitizeMakesPaired(LoadAll(log));
    ExactlyPairedConcat(Sanitize(LoadAll(log)), stored);
    ReloadJoins(log, RowsOf(actions[..i]));
  }

  lemma RunCallsSeeLog(log: seq<Row>, userMessage: string, source: string, script: seq<RoundInput>)
    requires Scripted(script)
    ensures CallsSeeLog(Sanitize(LoadAll(log)), Run(log, userMessage, source, script))
  {
    hide Rounds, RowsOf, Sanitize, CallsSeeLog;
    var user := UserRow(userMessage);
    var start := Sanitize(LoadAll(log));
    RoundsCallsSeeLog(0, start + [Load(user)], 0, source, script);
    OneAction(Insert(user));
    PlainIsPaired(userMessage, User);
    assert LoadAll([user]) == [Load(user)];
    CallsSeeLogAfter(start, [Insert(user)], start + [Load(user)], Rounds(0, start + [Load(user)], 0, source, script));
  }

  /**
   * In every session, however its earlier runs were abandoned, each message list that a run passes to the model is
   * exactly paired, and it is the repaired log of everything stored up to that moment.
   */
  lemma ModelCallsArePaired(runs: seq<SessionRun>, userMessage: string, source: string, script: seq<RoundInput>)
    requires WellFormed(runs) && Scripted(script)
    ensures CallsArePaired(SessionLog(runs), Run(SessionLog(runs), userMessage, source, script).actions)
  {
    hide Run, RowsOf, Sanitize, SessionLog, AnswersFollowCalls, ExactlyPaired;
    var log := SessionLog(runs);
    SessionLogKeepsOrder(runs);
    RunCallsSeeLog(log, userMessage, source, script);
    var actions := Run(log, userMessage, source, script).actions;
    forall i | 0 <= i < |actions| && actions[i].CallModel?
      ensures ExactlyPaired(actions[i].messages)
      ensures actions[i].messages == Sanitize(LoadAll(log + RowsOf(actions[..i])))
    {
      CallIsPaired(log, actions, i);
    }
  }

  /** Reloading a log that continues with a paired part repairs only the old part. */
  lemma ReloadJoins(log: seq<Row>, more: seq<Row>)
    requires ExactlyPaired(LoadAll(more))
    ensures Sanitize(LoadAll(log + more)) == Sanitize(LoadAll(log)) + LoadAll(more)
  {
    hide Sanitize;
    LoadConcat(log, more);
    SanitizeKeepsPaired(LoadAll(more));
    if more != [] {
      assert !IsToolReply(LoadAll(more)[0]);
    }
    SanitizeSplits(LoadAll(log), LoadAll(more));
  }

  /**
   * Reload refines memory. After a run that was not interrupted, the next run starts from exactly the conversation
   * that this run had in memory, followed by the text it delivered, if any.
   */
  lemma ReloadRestoresMemory(log: seq<Row>, userMessage: string, source: string, script: seq<RoundInput>)
    requires Scripted(script)
    ensures var r := Run(log, userMessage, source, script);
            Sanitize(LoadAll(log + RowsOf(r.actions))) == r.messages + DeliveredMessages(r.delivered)
  {
    hide Run, RowsOf, Sanitize;
    RunRows(log, userMessage, source, script);
    ReloadJoins(log, RowsOf(Run(log, userMessage, source, script).actions));
  }
}
