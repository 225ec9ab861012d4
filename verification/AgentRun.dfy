/**
 * One run of the agent: a bounded loop of model calls and tool rounds that keeps a conversation in memory,
 * stores rows, and emits chunks. What the model and the tools do is given as a script, round by round.
 */
module AgentRun {
  import opened Wrappers
  import opened Text
  import opened Conversation

  const MAX_TOOL_ROUNDS := 20
  const MAX_CONTEXT_TOKENS := 150000

  const EXECUTION_RECOVERY_TOOL_NAMES: set<string> :=
    {"shell_exec", "app_launch", "process_kill", "screen_capture", "mouse_move", "mouse_click", "keyboard_type",
     "yeonjang_camera_list", "yeonjang_camera_capture"}

  datatype AiChunk =
    | TextDelta(delta: string)
    | UseTool(use: Use)
    | MessageStop(inputTokens: nat, outputTokens: nat)

  datatype Use = Use(id: string, name: string, input: string)

  /** How reading the model's stream ends. A stream cut by the abort signal counts as finished. */
  datatype StreamEnd = Finished | Failed(reason: string, message: string) | FailedAborted

  datatype Details = NoDetails | Details(stopAfterFailure: bool, artifactDelivery: bool, ownsFinalText: bool)

  /** A tool's result; `rendered` is the text that the model gets to see. */
  datatype Outcome = Outcome(success: bool, output: string, error: Option<string>, details: Details, rendered: string)

  /** Everything that happens to a run from outside during one round. */
  datatype RoundInput = RoundInput(abortedBefore: bool, chunks: seq<AiChunk>, end: StreamEnd, outcomes: seq<Outcome>)

  datatype AgentChunk =
    | TextChunk(delta: string)
    | ToolStart(toolName: string, params: string)
    | ToolEnd(toolName: string, success: bool, output: string)
    | ExecutionRecovery(toolNames: seq<string>)
    | AiRecovery(reason: string, message: string)
    | Done(totalTokens: nat)
    | Error(message: string)

  /** What a run does, in order. A run that is cut short has done a prefix of its actions. */
  datatype Action =
    | Insert(row: Row)
    | CallModel(round: nat, messages: seq<Message>)
    | Yield(chunk: AgentChunk)

  // ----- One round -----

  function TextOf(chunks: seq<AiChunk>): string {
    if chunks == [] then ""
    else if chunks[|chunks| - 1].TextDelta? then TextOf(chunks[..|chunks| - 1]) + chunks[|chunks| - 1].delta
    else TextOf(chunks[..|chunks| - 1])
  }

  function UsesOf(chunks: seq<AiChunk>): seq<Use> {
    if chunks == [] then []
    else if chunks[|chunks| - 1].UseTool? then UsesOf(chunks[..|chunks| - 1]) + [chunks[|chunks| - 1].use]
    else UsesOf(chunks[..|chunks| - 1])
  }

  function TokensOf(chunks: seq<AiChunk>): nat {
    if chunks == [] then 0
    else
      var last := chunks[|chunks| - 1];
      TokensOf(chunks[..|chunks| - 1]) + if last.MessageStop? then last.inputTokens + last.outputTokens else 0
  }

  /** The dispatcher answers every tool use of the round. */
  predicate Scripted(script: seq<RoundInput>) {
    && |script| == MAX_TOOL_ROUNDS
    && forall i :: 0 <= i < |script| ==> |script[i].outcomes| == |UsesOf(script[i].chunks)|
  }

  function UseBlocks(uses: seq<Use>): seq<Block> {
    seq(|uses|, i requires 0 <= i < |uses| => ToolUse(uses[i].id, uses[i].name, uses[i].input))
  }

  function CallContent(text: string, uses: seq<Use>): seq<Block> {
    (if text != "" then [Text(text)] else []) + UseBlocks(uses)
  }

  function ResultBlocks(uses: seq<Use>, outcomes: seq<Outcome>): seq<Block>
    requires |uses| == |outcomes|
  {
    seq(|uses|, i requires 0 <= i < |uses| => ToolResult(uses[i].id, outcomes[i].rendered, !outcomes[i].success))
  }

  function ToolChunks(uses: seq<Use>, outcomes: seq<Outcome>): seq<Action>
    requires |uses| == |outcomes|
  {
    if uses == [] then []
    else
      ToolChunks(uses[..|uses| - 1], outcomes[..|uses| - 1])
      + [Yield(ToolStart(uses[|uses| - 1].name, uses[|uses| - 1].input)),
         Yield(ToolEnd(uses[|uses| - 1].name, outcomes[|uses| - 1].success, outcomes[|uses| - 1].output))]
  }

  predicate SignalsRecovery(toolName: string, outcome: Outcome) {
    && !outcome.success
    && toolName in EXECUTION_RECOVERY_TOOL_NAMES
    && outcome.error != Some("CAMERA_FACING_SELECTION_UNSUPPORTED")
  }

  /** The tools of the round whose failure calls for a recovery, each named once. */
  function RecoveryNames(uses: seq<Use>, outcomes: seq<Outcome>): seq<string>
    requires |uses| == |outcomes|
  {
    if uses == [] then []
    else
      var front := RecoveryNames(uses[..|uses| - 1], outcomes[..|uses| - 1]);
      var name := uses[|uses| - 1].name;
      if SignalsRecovery(name, outcomes[|uses| - 1]) && name !in front then front + [name] else front
  }

  function TrimmedOutput(outcome: Outcome): string {
    TrimBy(outcome.output, IsScriptWhitespace)
  }

  function TerminalFailureText(outcomes: seq<Outcome>): Option<string> {
    if outcomes == [] then None
    else if !outcomes[0].success && outcomes[0].details.Details? && outcomes[0].details.stopAfterFailure
            && TrimmedOutput(outcomes[0]) != "" then
      Some(TrimmedOutput(outcomes[0]))
    else TerminalFailureText(outcomes[1..])
  }

  /** A successful tool that delivered an artifact, or that owns the final text and has one, ends the run. */
  predicate TerminatesRun(outcome: Outcome) {
    outcome.success && outcome.details.Details?
    && (outcome.details.artifactDelivery || (outcome.details.ownsFinalText && TrimmedOutput(outcome) != ""))
  }

  predicate StopsAfterRound(source: string, uses: seq<Use>, outcomes: seq<Outcome>)
    requires |uses| == |outcomes|
  {
    || (exists i :: 0 <= i < |outcomes| && TerminatesRun(outcomes[i]))
    || (source == "telegram"
        && exists i :: 0 <= i < |uses| && uses[i].name == "telegram_send_file" && !outcomes[i].success)
  }

  function AssistantRow(text: string): Row {
    Row(Assistant, text, None)
  }

  // ----- The whole loop -----

  /** The actions of a run, its conversation in memory at the end, and the text it delivered, if any. */
  datatype Result = Result(actions: seq<Action>, messages: seq<Message>, delivered: Option<string>)

  function After(first: seq<Action>, rest: Result): Result {
    rest.(actions := first + rest.actions)
  }

  /** A last text, delivered and stored, but no longer added to the conversation in memory. */
  function Deliver(text: string): seq<Action> {
    [Yield(TextChunk(text)), Insert(AssistantRow(text))]
  }

  function Rounds(round: nat, messages: seq<Message>, tokens: nat, source: string, script: seq<RoundInput>): Result
    requires Scripted(script) && round <= MAX_TOOL_ROUNDS
    decreases MAX_TOOL_ROUNDS - round, 2
  {
    if round == MAX_TOOL_ROUNDS then Result([Yield(Done(tokens))], messages, None)
    else if script[round].abortedBefore then Result([Yield(Error("Aborted by user"))], messages, None)
    else After([CallModel(round, messages)], AfterCall(round, messages, tokens, source, script))
  }

  function AfterCall(round: nat, messages: seq<Message>, tokens: nat, source: string, script: seq<RoundInput>): Result
    requires Scripted(script) && round < MAX_TOOL_ROUNDS
    decreases MAX_TOOL_ROUNDS - round, 1
  {
    var input := script[round];
    var text, uses, total := TextOf(input.chunks), UsesOf(input.chunks), tokens + TokensOf(input.chunks);
    match input.end
    case FailedAborted => Result([Yield(Error("Aborted"))], messages, None)
    case Failed(reason, message) => Result([Yield(AiRecovery(reason, message))], messages, None)
    case Finished =>
      if uses == [] then
        if text != "" then Result(Deliver(text) + [Yield(Done(total))], messages, Some(text))
        else Result([Yield(Done(total))], messages, None)
      else
        After(ToolRoundActions(text, uses, input.outcomes),
              AfterTools(round, messages + ToolRoundMessages(text, uses, input.outcomes), total, source, script))
  }

  function AfterTools(round: nat, messages: seq<Message>, tokens: nat, source: string, script: seq<RoundInput>): Result
    requires Scripted(script) && round < MAX_TOOL_ROUNDS
    decreases MAX_TOOL_ROUNDS - round, 0
  {
    var uses, outcomes := UsesOf(script[round].chunks), script[round].outcomes;
    var failure := TerminalFailureText(outcomes);
    if failure.Some? then Result(Deliver(failure.value) + [Yield(Done(tokens))], messages, failure)
    else if StopsAfterRound(source, uses, outcomes) then Result([Yield(Done(tokens))], messages, None)
    else After(Recovery(RecoveryNames(uses, outcomes)),
               if tokens > MAX_CONTEXT_TOKENS then Result([Yield(Done(tokens))], messages, None)
               else Rounds(round + 1, messages, tokens, source, script))
  }

  function Recovery(toolNames: seq<string>): seq<Action> {
    if toolNames != [] then [Yield(ExecutionRecovery(toolNames))] else []
  }

  function ToolRoundRows(text: string, uses: seq<Use>, outcomes: seq<Outcome>): seq<Row>
    requires |uses| == |outcomes|
  {
    [Row(Assistant, text, Some(CallContent(text, uses))), Row(User, "", Some(ResultBlocks(uses, outcomes)))]
  }

  function ToolRoundMessages(text: string, uses: seq<Use>, outcomes: seq<Outcome>): seq<Message>
    requires |uses| == |outcomes|
  {
    [Message(Assistant, Blocks(CallContent(text, uses))), Message(User, Blocks(ResultBlocks(uses, outcomes)))]
  }

  function ToolRoundActions(text: string, uses: seq<Use>, outcomes: seq<Outcome>): seq<Action>
    requires |uses| == |outcomes|
  {
    [Insert(ToolRoundRows(text, uses, outcomes)[0])] + ToolChunks(uses, outcomes) + [Insert(ToolRoundRows(text, uses, outcomes)[1])]
  }

  function UserRow(userMessage: string): Row {
    Row(User, userMessage, None)
  }

  /** A whole run over the stored log. */
  function Run(log: seq<Row>, userMessage: string, source: string, script: seq<RoundInput>): Result
    requires Scripted(script)
  {
    After([Insert(UserRow(userMessage))],
          Rounds(0, Sanitize(LoadAll(log)) + [Load(UserRow(userMessage))], 0, source, script))
  }

  // ----- The run as the agent executes it -----

  class MessageStore {
    var rows: seq<Row>

    constructor ()
      ensures rows == []
    {
      rows := [];
    }

    method InsertMessage(row: Row)
      modifies this
      ensures rows == old(rows) + [row]
    {
      rows := rows + [row];
    }
  }

  function RowsOf(actions: seq<Action>): seq<Row> {
    if actions == [] then []
    else
      var last := actions[|actions| - 1];
      RowsOf(actions[..|actions| - 1]) + if last.Insert? then [last.row] else []
  }

  lemma {:induction false} RowsConcat(a: seq<Action>, b: seq<Action>)
    ensures RowsOf(a + b) == RowsOf(a) + RowsOf(b)
  {
    if b == [] {
      assert a + b == a;
    } else {
      assert (a + b)[..|a + b| - 1] == a + b[..|b| - 1];
      RowsConcat(a, b[..|b| - 1]);
    }
  }

  method ReadStream(chunks: seq<AiChunk>, tokensBefore: nat) returns (textBuffer: string, pendingToolUses: seq<Use>, totalTokens: nat)
    ensures textBuffer == TextOf(chunks) && pendingToolUses == UsesOf(chunks)
    ensures totalTokens == tokensBefore + TokensOf(chunks)
  {
    textBuffer, pendingToolUses, totalTokens := "", [], tokensBefore;
    for i := 0 to |chunks|
      invariant textBuffer == TextOf(chunks[..i]) && pendingToolUses == UsesOf(chunks[..i])
      invariant totalTokens == tokensBefore + TokensOf(chunks[..i])
    {
      assert chunks[..i + 1][..i] == chunks[..i];
      match chunks[i] {
        case TextDelta(delta) => textBuffer := textBuffer + delta;
        case UseTool(use) => pendingToolUses := pendingToolUses + [use];
        case MessageStop(input, output) => totalTokens := totalTokens + (input + output);
      }
    }
    assert chunks[..|chunks|] == chunks;
  }

  lemma AfterAfter(a: seq<Action>, b: seq<Action>, rest: Result)
    ensures After(a, After(b, rest)) == After(a + b, rest)
  {
    assert a + (b + rest.actions) == (a + b) + rest.actions;
  }

  /** One execution of the agent: what it has done so far, together with the store it writes to. */
  class AgentRunner {
    const store: MessageStore
    ghost const before: seq<Row>
    var trace: seq<Action>

    constructor (store: MessageStore)
      ensures this.store == store && before == store.rows && trace == []
    {
      this.store := store;
      before := store.rows;
      trace := [];
    }

    /** Rows are stored exactly as the trace says. */
    ghost predicate InStep()
      reads this, store
    {
      store.rows == before + RowsOf(trace)
    }

    method Emit(chunk: AgentChunk)
      requires InStep()
      modifies this
      ensures InStep() && trace == old(trace) + [Yield(chunk)]
    {
      trace := trace + [Yield(chunk)];
      assert trace[..|trace| - 1] == old(trace);
    }

    method Save(row: Row)
      requires InStep()
      modifies this, store
      ensures InStep() && trace == old(trace) + [Insert(row)]
    {
      store.InsertMessage(row);
      trace := trace + [Insert(row)];
      assert trace[..|trace| - 1] == old(trace);
    }

    method Ask(round: nat, messages: seq<Message>)
      requires InStep()
      modifies this
      ensures InStep() && trace == old(trace) + [CallModel(round, messages)]
    {
      trace := trace + [CallModel(round, messages)];
      assert trace[..|trace| - 1] == old(trace);
    }

    /** Runs the tools of one round, emitting a start and an end for each. */
    method ExecuteTools(uses: seq<Use>, outcomes: seq<Outcome>) returns (results: seq<Block>, failedNames: seq<string>)
      requires InStep() && |uses| == |outcomes|
      modifies this
      ensures InStep() && trace == old(trace) + ToolChunks(uses, outcomes)
      ensures results == ResultBlocks(uses, outcomes) && failedNames == RecoveryNames(uses, outcomes)
    {
      results, failedNames := [], [];
      for i := 0 to |uses|
        invariant InStep() && trace == old(trace) + ToolChunks(uses[..i], outcomes[..i])
        invariant results == ResultBlocks(uses[..i], outcomes[..i])
        invariant failedNames == RecoveryNames(uses[..i], outcomes[..i])
      {
        assert uses[..i + 1][..i] == uses[..i] && outcomes[..i + 1][..i] == outcomes[..i];
        Emit(ToolStart(uses[i].name, uses[i].input));
        Emit(ToolEnd(uses[i].name, outcomes[i].success, outcomes[i].output));
        if SignalsRecovery(uses[i].name, outcomes[i]) && uses[i].name !in failedNames {
          failedNames := failedNames + [uses[i].name];
        }
        results := results + [ToolResult(uses[i].id, outcomes[i].rendered, !outcomes[i].success)];
      }
      assert uses[..|uses|] == uses && outcomes[..|uses|] == outcomes;
    }

    /** The text is emitted first and stored afterwards. */
    method DeliverText(text: string)
      requires InStep()
      modifies this, store
      ensures InStep() && trace == old(trace) + Deliver(text)
    {
      Emit(TextChunk(text));
      Save(AssistantRow(text));
    }

    /** One round of tools, from the assistant's call to the stored results. */
    method ToolRound(text: string, uses: seq<Use>, outcomes: seq<Outcome>, messages: seq<Message>)
      returns (messages': seq<Message>, failedNames: seq<string>)
      requires InStep() && |uses| == |outcomes|
      modifies this, store
      ensures InStep() && trace == old(trace) + ToolRoundActions(text, uses, outcomes)
      ensures messages' == messages + ToolRoundMessages(text, uses, outcomes)
      ensures failedNames == RecoveryNames(uses, outcomes)
    {
      var content := CallContent(text, uses);
      messages' := messages + [Message(Assistant, Blocks(content))];
      Save(Row(Assistant, text, Some(content)));
      var results;
      results, failedNames := ExecuteTools(uses, outcomes);
      messages' := messages' + [Message(User, Blocks(results))];
      Save(Row(User, "", Some(results)));
    }

    /** What follows a round of tools: a last text, a stop, or a recovery and the next round. */
    method FinishToolRound(round: nat, messages: seq<Message>, totalTokens: nat, failedNames: seq<string>,
                           source: string, script: seq<RoundInput>)
      returns (delivered: Option<string>, finished: bool, ghost done: seq<Action>)
      requires InStep() && Scripted(script) && round < MAX_TOOL_ROUNDS
      requires failedNames == RecoveryNames(UsesOf(script[round].chunks), script[round].outcomes)
      modifies this, store
      ensures InStep() && trace == old(trace) + done
      ensures AfterTools(round, messages, totalTokens, source, script) ==
              if finished then Result(done, messages, delivered)
              else After(done, Rounds(round + 1, messages, totalTokens, source, script))
      ensures !finished ==> delivered == None
    {
      hide Rounds, RecoveryNames, UsesOf, TerminalFailureText, StopsAfterRound, RowsOf;
      delivered := None;
      var uses, outcomes := UsesOf(script[round].chunks), script[round].outcomes;
      var failure := TerminalFailureText(outcomes);
      if failure.Some? {
        DeliverText(failure.value);
        Emit(Done(totalTokens));
        return failure, true, Deliver(failure.value) + [Yield(Done(totalTokens))];
      }
      if StopsAfterRound(source, uses, outcomes) {
        Emit(Done(totalTokens));
        return None, true, [Yield(Done(totalTokens))];
      }
      if failedNames != [] {
        Emit(ExecutionRecovery(failedNames));
      }
      done := Recovery(failedNames);
      if totalTokens > MAX_CONTEXT_TOKENS {
        Emit(Done(totalTokens));
        return None, true, done + [Yield(Done(totalTokens))];
      }
      finished := false;
    }

    /** A pass through the loop from the model's stream on. */
    method ReadAndAct(round: nat, messages: seq<Message>, totalTokens: nat, source: string, script: seq<RoundInput>)
      returns (messages': seq<Message>, totalTokens': nat, delivered: Option<string>, finished: bool, ghost done: seq<Action>)
      requires InStep() && Scripted(script) && round < MAX_TOOL_ROUNDS
      modifies this, store
      ensures InStep() && trace == old(trace) + done
      ensures AfterCall(round, messages, totalTokens, source, script) ==
              if finished then Result(done, messages', delivered)
              else After(done, Rounds(round + 1, messages', totalTokens', source, script))
      ensures !finished ==> delivered == None
    {
      hide AfterTools, Rounds, UsesOf, TextOf, TokensOf, ToolRoundActions, ToolRoundMessages, RecoveryNames, RowsOf;
      messages', totalTokens', delivered, finished := messages, totalTokens, None, true;
      match script[round].end {
        case FailedAborted =>
          Emit(Error("Aborted"));
          return messages, totalTokens, None, true, [Yield(Error("Aborted"))];
        case Failed(reason, message) =>
          Emit(AiRecovery(reason, message));
          return messages, totalTokens, None, true, [Yield(AiRecovery(reason, message))];
        case Finished =>
      }
      var text, uses;
      text, uses, totalTokens' := ReadStream(script[round].chunks, totalTokens);
      if uses == [] {
        done := [];
        if text != "" {
          DeliverText(text);
          delivered := Some(text);
          done := Deliver(text);
        }
        Emit(Done(totalTokens'));
        done := done + [Yield(Done(totalTokens'))];
        return;
      }
      var failedNames;
      messages', failedNames := ToolRound(text, uses, script[round].outcomes, messages);
      ghost var last;
      delivered, finished, last := FinishToolRound(round, messages', totalTokens', failedNames, source, script);
      done := ToolRoundActions(text, uses, script[round].outcomes) + last;
      AfterAfter(ToolRoundActions(text, uses, script[round].outcomes), last, Rounds(round + 1, messages', totalTokens', source, script));
    }

    /** One pass through the loop. */
    method OneRound(round: nat, messages: seq<Message>, totalTokens: nat, source: string, script: seq<RoundInput>)
      returns (messages': seq<Message>, totalTokens': nat, delivered: Option<string>, finished: bool, ghost done: seq<Action>)
      requires InStep() && Scripted(script) && round < MAX_TOOL_ROUNDS
      modifies this, store
      ensures InStep() && trace == old(trace) + done
      ensures Rounds(round, messages, totalTokens, source, script) ==
              if finished then Result(done, messages', delivered)
              else After(done, Rounds(round + 1, messages', totalTokens', source, script))
      ensures !finished ==> delivered == None
    {
      hide AfterCall, RowsOf;
      if script[round].abortedBefore {
        Emit(Error("Aborted by user"));
        return messages, totalTokens, None, true, [Yield(Error("Aborted by user"))];
      }
      Ask(round, messages);
      messages', totalTokens', delivered, finished, done := ReadAndAct(round, messages, totalTokens, source, script);
      AfterAfter([CallModel(round, messages)], done, Rounds(round + 1, messages', totalTokens', source, script));
      done := [CallModel(round, messages)] + done;
    }

    /** The agent's generator, driven to its end. */
    method RunAgent(userMessage: string, source: string, script: seq<RoundInput>)
      returns (messages: seq<Message>, delivered: Option<string>)
      requires Scripted(script) && trace == [] && store.rows == before
      modifies this, store
      ensures InStep()
      ensures Result(trace, messages, delivered) == Run(before, userMessage, source, script)
    {
      hide Rounds, RowsOf, Sanitize;
      messages := SanitizeHistory(LoadAll(store.rows));
      messages := messages + [Load(UserRow(userMessage))];
      assert InStep() by { EmptyRows(); }
      Save(UserRow(userMessage));
      var totalTokens: nat := 0;
      var round := 0;
      ghost var full := Run(before, userMessage, source, script);
      while round < MAX_TOOL_ROUNDS
        invariant round <= MAX_TOOL_ROUNDS && InStep()
        invariant full == After(trace, Rounds(round, messages, totalTokens, source, script))
      {
        ghost var start := trace;
        var finished;
        ghost var done;
        messages, totalTokens, delivered, finished, done := OneRound(round, messages, totalTokens, source, script);
        if finished {
          return;
        }
        AfterAfter(start, done, Rounds(round + 1, messages, totalTokens, source, script));
        round := round + 1;
      }
      LastRound(messages, totalTokens, source, script);
      Emit(Done(totalTokens));
      delivered := None;
    }
  }

  lemma EmptyRows()
    ensures RowsOf([]) == []
  {}

  lemma LastRound(messages: seq<Message>, tokens: nat, source: string, script: seq<RoundInput>)
    requires Scripted(script)
    ensures Rounds(MAX_TOOL_ROUNDS, messages, tokens, source, script) == Result([Yield(Done(tokens))], messages, None)
  {}
}
