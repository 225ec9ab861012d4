/** The messages of a session, how they are reloaded from stored rows, and the repair made while reloading. */
module Conversation {
  import opened Wrappers

  datatype Role = User | Assistant

  datatype Block =
    | Text(text: string)
    | ToolUse(id: string, name: string, input: string)
    | ToolResult(toolUseId: string, content: string, isError: bool)

  datatype Content = Plain(text: string) | Blocks(blocks: seq<Block>)

  datatype Message = Message(role: Role, content: Content)

  /** A row of the message table; `toolCalls` is stored as JSON and read back unchanged. */
  datatype Row = Row(role: Role, content: string, toolCalls: Option<seq<Block>>)

  function Load(row: Row): Message {
    Message(row.role, match row.toolCalls case Some(blocks) => Blocks(blocks) case None => Plain(row.content))
  }

  function LoadAll(rows: seq<Row>): seq<Message> {
    seq(|rows|, i requires 0 <= i < |rows| => Load(rows[i]))
  }

  lemma LoadConcat(a: seq<Row>, b: seq<Row>)
    ensures LoadAll(a + b) == LoadAll(a) + LoadAll(b)
  {}

  predicate HasToolUse(blocks: seq<Block>) {
    exists i :: 0 <= i < |blocks| && blocks[i].ToolUse?
  }

  predicate HasToolResult(blocks: seq<Block>) {
    exists i :: 0 <= i < |blocks| && blocks[i].ToolResult?
  }

  predicate IsToolCall(m: Message) {
    m.role == Assistant && m.content.Blocks? && HasToolUse(m.content.blocks)
  }

  predicate IsToolReply(m: Message) {
    m.content.Blocks? && HasToolResult(m.content.blocks)
  }

  /** The text blocks, joined with newlines. */
  function TextOnly(blocks: seq<Block>): string {
    JoinLines(Texts(blocks))
  }

  function Texts(blocks: seq<Block>): seq<string> {
    if blocks == [] then []
    else if blocks[0].Text? then [blocks[0].text] + Texts(blocks[1..])
    else Texts(blocks[1..])
  }

  function JoinLines(lines: seq<string>): string {
    if lines == [] then ""
    else if |lines| == 1 then lines[0]
    else lines[0] + "\n" + JoinLines(lines[1..])
  }

  // ----- The repair -----

  predicate IsOrphaned(m: Message, rest: seq<Message>) {
    IsToolCall(m) && !(rest != [] && IsToolReply(rest[0]))
  }

  /** What becomes of one message, given the ones after it: an unanswered tool call keeps only its text. */
  function Repaired(m: Message, rest: seq<Message>): seq<Message> {
    if !IsOrphaned(m, rest) then [m]
    else if TextOnly(m.content.blocks) != "" then [Message(Assistant, Plain(TextOnly(m.content.blocks)))]
    else []
  }

  function Sanitize(raw: seq<Message>): seq<Message> {
    if raw == [] then [] else Repaired(raw[0], raw[1..]) + Sanitize(raw[1..])
  }

  lemma SanitizeEmpty()
    ensures Sanitize([]) == []
  {}

  lemma SanitizeStep(raw: seq<Message>, i: nat)
    requires i < |raw|
    ensures Sanitize(raw[i..]) == Repaired(raw[i], raw[i + 1..]) + Sanitize(raw[i + 1..])
    ensures raw[i + 1..] != [] ==> raw[i + 1..][0] == raw[i + 1]
  {
    assert raw[i..][0] == raw[i] && raw[i..][1..] == raw[i + 1..];
  }

  method SanitizeHistory(raw: seq<Message>) returns (messages: seq<Message>)
    ensures messages == Sanitize(raw)
  {
    hide TextOnly, Sanitize, HasToolUse, HasToolResult;
    messages := [];
    SanitizeEmpty();
    assert raw[0..] == raw;
    for i := 0 to |raw|
      invariant messages + Sanitize(raw[i..]) == Sanitize(raw)
    {
      SanitizeStep(raw, i);
      var message := raw[i];
      if IsToolCall(message) {
        var nextHasToolResults := i + 1 < |raw| && IsToolReply(raw[i + 1]);
        if !nextHasToolResults {
          var textOnly := TextOnly(message.content.blocks);
          if textOnly != "" {
            messages := messages + [Message(Assistant, Plain(textOnly))];
          }
          continue;
        }
      }
      messages := messages + [message];
    }
    assert raw[|raw|..] == [];
  }

  /**
   * The repair works on two halves of a log independently, exactly unless the cut separates a tool call
   * from a tool result.
   */
  lemma {:induction false} SanitizeSplits(a: seq<Message>, b: seq<Message>)
    ensures Sanitize(a + b) == Sanitize(a) + Sanitize(b)
       <==> !(a != [] && b != [] && IsToolCall(a[|a| - 1]) && IsToolReply(b[0]))
  {
    if a == [] {
      assert a + b == b;
    } else {
      assert (a + b)[0] == a[0] && (a + b)[1..] == a[1..] + b;
      if |a| == 1 {
        SplitSingle(a[0], b);
      } else {
        SanitizeSplits(a[1..], b);
        var head := Repaired(a[0], a[1..]);
        assert Repaired(a[0], a[1..] + b) == head;
        Cancel(head, Sanitize(a[1..] + b), Sanitize(a[1..]) + Sanitize(b));
        assert head + (Sanitize(a[1..]) + Sanitize(b)) == Sanitize(a) + Sanitize(b);
      }
    }
  }

  lemma SplitSingle(m: Message, b: seq<Message>)
    ensures Sanitize([m] + b) == Sanitize([m]) + Sanitize(b) <==> !(b != [] && IsToolCall(m) && IsToolReply(b[0]))
  {
    hide TextOnly, HasToolUse, HasToolResult;
    assert ([m] + b)[1..] == b;
    assert Sanitize([m]) == Repaired(m, []) by {
      assert [m][1..] == [];
      assert Sanitize([m]) == Repaired(m, []) + [];
    }
    if b != [] && IsToolCall(m) && IsToolReply(b[0]) {
      assert Sanitize([m] + b) == [m] + Sanitize(b);
      assert Repaired(m, []) != [m];
      CancelRight(Repaired(m, []), [m], Sanitize(b));
    } else {
      assert Repaired(m, b) == Repaired(m, []);
    }
  }

  lemma Cancel<T>(a: seq<T>, b: seq<T>, c: seq<T>)
    ensures a + b == a + c <==> b == c
  {
    if a + b == a + c {
      assert b == (a + b)[|a|..] && c == (a + c)[|a|..];
    }
  }

  lemma CancelRight<T>(a: seq<T>, b: seq<T>, c: seq<T>)
    ensures a + c == b + c <==> a == b
  {
    if a + c == b + c {
      assert |a| == |b|;
      assert a == (a + c)[..|a|] && b == (b + c)[..|b|];
    }
  }

  // ----- What the repair keeps -----

  /** The texts of a message's blocks in order: of a text block its text, of any other block nothing. */
  lemma {:induction false} TextsLaws(a: seq<Block>, b: seq<Block>, c: Block)
    ensures Texts([]) == []
    ensures Texts(a + b) == Texts(a) + Texts(b)
    ensures Texts([c]) == if c.Text? then [c.text] else []
  {
    if a == [] {
      assert a + b == b;
    } else {
      assert (a + b)[1..] == a[1..] + b;
      TextsLaws(a[1..], b, c);
    }
  }

  /** Lines are joined with one line break between neighbours. */
  lemma {:induction false} JoinLinesLaws(a: seq<string>, b: seq<string>, c: string)
    ensures JoinLines([]) == "" && JoinLines([c]) == c
    ensures a != [] && b != [] ==> JoinLines(a + b) == JoinLines(a) + "\n" + JoinLines(b)
  {
    if a != [] && b != [] {
      assert (a + b)[1..] == a[1..] + b;
      if |a| > 1 {
        JoinLinesLaws(a[1..], b, c);
      } else {
        assert a[1..] + b == b;
      }
    }
  }

  /**
   * Each message on its own: a call of the assistant that no tool results follow becomes its plain text, or nothing if
   * it has none, and every other message stays as it is, in its place.
   */
  lemma SanitizeEach(before: seq<Message>, m: Message, rest: seq<Message>)
    requires !(before != [] && IsToolCall(before[|before| - 1]) && IsToolReply(m))
    ensures Sanitize(before + [m] + rest) == Sanitize(before) + Sanitize([m] + rest)
    ensures var answered := rest != [] && rest[0].content.Blocks?
                            && exists k :: 0 <= k < |rest[0].content.blocks| && rest[0].content.blocks[k].ToolResult?;
            var calls := m.role == Assistant && m.content.Blocks?
                         && exists k :: 0 <= k < |m.content.blocks| && m.content.blocks[k].ToolUse?;
            Sanitize([m] + rest) ==
              (if !calls || answered then [m]
               else
                 var text := JoinLines(Texts(m.content.blocks));
                 if text == "" then [] else [Message(Assistant, Plain(text))])
              + Sanitize(rest)
  {
    hide Texts, JoinLines, Sanitize, HasToolUse, HasToolResult;
    assert before + [m] + rest == before + ([m] + rest);
    SanitizeSplits(before, [m] + rest);
    SanitizeHead(m, rest);
    Meaning(m, rest);
  }

  lemma SanitizeHead(m: Message, rest: seq<Message>)
    ensures Sanitize([m] + rest) == Repaired(m, rest) + Sanitize(rest)
  {
    hide Repaired;
    assert ([m] + rest)[1..] == rest;
  }

  lemma Meaning(m: Message, rest: seq<Message>)
    ensures IsToolCall(m) <==> m.role == Assistant && m.content.Blocks? && exists k :: 0 <= k < |m.content.blocks| && m.content.blocks[k].ToolUse?
    ensures rest != [] ==> (IsToolReply(rest[0]) <==> rest[0].content.Blocks? && exists k :: 0 <= k < |rest[0].content.blocks| && rest[0].content.blocks[k].ToolResult?)
  {}

  /** A row that holds blocks is reloaded as these blocks, and any other one as its plain text. */
  lemma LoadedRows(rows: seq<Row>, i: nat)
    requires i < |rows|
    ensures |LoadAll(rows)| == |rows| && LoadAll(rows)[i].role == rows[i].role
    ensures LoadAll(rows)[i].content == if rows[i].toolCalls.Some? then Blocks(rows[i].toolCalls.value) else Plain(rows[i].content)
  {}

  // ----- Pairing -----

  function UseIds(blocks: seq<Block>): seq<string> {
    if blocks == [] then []
    else if blocks[0].ToolUse? then [blocks[0].id] + UseIds(blocks[1..])
    else UseIds(blocks[1..])
  }

  function ResultIds(blocks: seq<Block>): seq<string> {
    if blocks == [] then []
    else if blocks[0].ToolResult? then [blocks[0].toolUseId] + ResultIds(blocks[1..])
    else ResultIds(blocks[1..])
  }

  /** The user message that answers exactly the tool uses of a call, in order, and holds nothing else. */
  ghost predicate Answers(call: Message, reply: Message) {
    && IsToolCall(call)
    && reply.role == User && IsToolReply(reply)
    && (forall i :: 0 <= i < |reply.content.blocks| ==> reply.content.blocks[i].ToolResult?)
    && ResultIds(reply.content.blocks) == UseIds(call.content.blocks)
  }

  /** Every call is followed at once by its answer, and every tool result message answers the call before it. */
  ghost predicate ExactlyPaired(s: seq<Message>) {
    && (forall i :: 0 <= i < |s| && IsToolCall(s[i]) ==> i + 1 < |s| && Answers(s[i], s[i + 1]))
    && (forall i :: 0 <= i < |s| && IsToolReply(s[i]) ==> 0 < i && Answers(s[i - 1], s[i]))
  }

  /** A log in which calls may have been left unanswered, but every tool result message answers the call before it. */
  ghost predicate AnswersFollowCalls(s: seq<Message>) {
    forall i :: 0 <= i < |s| && IsToolReply(s[i]) ==> 0 < i && Answers(s[i - 1], s[i])
  }

  lemma AnswersFollowCallsConcat(a: seq<Message>, b: seq<Message>)
    requires AnswersFollowCalls(a) && AnswersFollowCalls(b)
    ensures AnswersFollowCalls(a + b)
  {
    forall i | 0 <= i < |a + b| && IsToolReply((a + b)[i])
      ensures 0 < i && Answers((a + b)[i - 1], (a + b)[i])
    {
      if i >= |a| {
        assert IsToolReply(b[i - |a|]);
        assert Answers(b[i - |a| - 1], b[i - |a|]);
      } else {
        assert IsToolReply(a[i]);
      }
    }
  }

  lemma AnswersFollowCallsPrefix(s: seq<Message>, n: nat)
    requires AnswersFollowCalls(s) && n <= |s|
    ensures AnswersFollowCalls(s[..n])
  {}

  lemma ExactlyPairedConcat(a: seq<Message>, b: seq<Message>)
    requires ExactlyPaired(a) && ExactlyPaired(b)
    ensures ExactlyPaired(a + b)
  {
    AnswersFollowCallsConcat(a, b);
    forall i | 0 <= i < |a + b| && IsToolCall((a + b)[i])
      ensures i + 1 < |a + b| && Answers((a + b)[i], (a + b)[i + 1])
    {
      if i >= |a| {
        assert IsToolCall(b[i - |a|]);
        assert Answers(b[i - |a|], b[i - |a| + 1]);
      } else {
        assert IsToolCall(a[i]);
      }
    }
  }

  /** The repair turns every such log into an exactly paired conversation. */
  lemma {:induction false} SanitizeMakesPaired(raw: seq<Message>)
    requires AnswersFollowCalls(raw)
    ensures ExactlyPaired(Sanitize(raw))
  {
    if raw != [] {
      if |raw| > 1 && IsToolReply(raw[1]) {
        assert Answers(raw[0], raw[1]);
        SkipPair(raw);
        SanitizeMakesPaired(raw[2..]);
        assert ExactlyPaired(raw[..2]);
        ExactlyPairedConcat(raw[..2], Sanitize(raw[2..]));
      } else {
        AnswersFollowCallsSuffix(raw, 1);
        SanitizeMakesPaired(raw[1..]);
        assert !IsToolReply(raw[0]);
        assert ExactlyPaired(Repaired(raw[0], raw[1..]));
        ExactlyPairedConcat(Repaired(raw[0], raw[1..]), Sanitize(raw[1..]));
      }
    }
  }

  lemma AnswersFollowCallsSuffix(s: seq<Message>, n: nat)
    requires AnswersFollowCalls(s) && n <= |s| && (n < |s| ==> !IsToolReply(s[n]))
    ensures AnswersFollowCalls(s[n..])
  {
    forall i | 0 <= i < |s[n..]| && IsToolReply(s[n..][i])
      ensures 0 < i && Answers(s[n..][i - 1], s[n..][i])
    {
      assert IsToolReply(s[n + i]);
    }
  }

  lemma {:induction false} SkipPair(raw: seq<Message>)
    requires AnswersFollowCalls(raw) && |raw| > 1 && Answers(raw[0], raw[1])
    ensures AnswersFollowCalls(raw[2..])
    ensures Sanitize(raw) == raw[..2] + Sanitize(raw[2..])
  {
    assert raw[1..][0] == raw[1] && raw[1..][1..] == raw[2..];
    assert |raw| > 2 ==> !IsToolReply(raw[2]);
    AnswersFollowCallsSuffix(raw, 2);
  }

  /** A conversation that is already paired is left alone. */
  lemma {:induction false} SanitizeKeepsPaired(s: seq<Message>)
    requires forall i :: 0 <= i < |s| && IsToolCall(s[i]) ==> i + 1 < |s| && IsToolReply(s[i + 1])
    ensures Sanitize(s) == s
  {
    if s != [] {
      forall i | 0 <= i < |s[1..]| && IsToolCall(s[1..][i])
        ensures i + 1 < |s[1..]| && IsToolReply(s[1..][i + 1])
      {
        assert IsToolCall(s[i + 1]);
      }
      SanitizeKeepsPaired(s[1..]);
      assert s == [s[0]] + s[1..];
    }
  }
}
