/** The two providers' message histories, and the one conversation both present to the agent loop. */
module Providers {
  import opened ByteText
  import opened Conversation

  // ----- replies

  datatype Block =
    | TextBlock(text: string)
    | Thinking(data: string)
    | ToolUse(call: Call)
    | ToolResultBlock(toolUseID: string, content: bytes, isError: bool)

  /** What one request to a backend comes back with: nothing, a chat completion, or content blocks. */
  datatype Completion =
    | Unavailable
    | NoChoices
    | Chosen(content: string, reasoning: string, structured: seq<Call>, recovered: seq<Call>, inTok: int, outTok: int)
    | Blocks(blocks: seq<Block>, stopForTools: bool, inTok: int, outTok: int)

  datatype ChatResult = ChatFailed | ChatDone(text: string, calls: seq<Call>, inTok: int, outTok: int)

  function Texts(bs: seq<Block>): string {
    if bs == [] then "" else Texts(bs[..|bs| - 1]) + if bs[|bs| - 1].TextBlock? then bs[|bs| - 1].text else ""
  }

  function ToolUses(bs: seq<Block>): seq<Call> {
    if bs == [] then [] else ToolUses(bs[..|bs| - 1]) + if bs[|bs| - 1].ToolUse? then [bs[|bs| - 1].call] else []
  }

  /** Text and calls are read off the blocks one after the other. */
  lemma {:induction false} BlocksInOrder(bs: seq<Block>, cs: seq<Block>, b: Block)
    ensures Texts(bs + cs) == Texts(bs) + Texts(cs) && ToolUses(bs + cs) == ToolUses(bs) + ToolUses(cs)
    ensures Texts([b]) == match b { case TextBlock(text) => text case _ => "" }
    ensures ToolUses([b]) == match b { case ToolUse(call) => [call] case _ => [] }
  {
    assert [b][..0] == [];
    if cs == [] {
      assert bs + cs == bs;
    } else {
      var init, last := cs[..|cs| - 1], cs[|cs| - 1];
      assert (bs + cs)[..|bs + cs| - 1] == bs + init;
      BlocksInOrder(bs, init, b);
    }
  }

  datatype Kind = OpenAIKind | AnthropicKind

  /** What Chat returns for a completion. Calls recovered from reasoning text count only when the
      content is empty and there are no structured ones; content blocks count only on a stop for tools. */
  function Understood(kind: Kind, c: Completion): ChatResult {
    match (kind, c)
    case (OpenAIKind, Chosen(content, reasoning, structured, recovered, i, o)) =>
      ChatDone(if content == "" then reasoning else content,
               if structured != [] then structured else if content == "" then recovered else [], i, o)
    case (AnthropicKind, Blocks(blocks, stop, i, o)) =>
      ChatDone(Texts(blocks), if stop then ToolUses(blocks) else [], i, o)
    case _ => ChatFailed
  }

  function AfterChat(h: History, r: ChatResult): History {
    if r.ChatDone? && r.calls != [] then h + [Assistant(r.calls)] else h
  }

  function AfterUser(h: History, text: string): History {
    if text == "" then h else h + [User(text)]
  }

  // ----- OpenAI: one flat message per tool result

  datatype OpenAIMessage =
    | OSystem(text: string)
    | OUser(text: string)
    | OAssistant(text: string, calls: seq<Call>)
    | OTool(content: bytes, callID: string)

  function OpenAIMsg(m: OpenAIMessage): Msg {
    match m
    case OSystem(t) => System(t)
    case OUser(t) => User(t)
    case OAssistant(_, calls) => Assistant(calls)
    case OTool(c, id) => Result(id, c)
  }

  function OpenAIView(ms: seq<OpenAIMessage>): (h: History)
    ensures |h| == |ms|
  {
    seq(|ms|, i requires 0 <= i < |ms| => OpenAIMsg(ms[i]))
  }

  class OpenAIProvider {
    var messages: seq<OpenAIMessage>

    constructor (system: string, task: string)
      ensures OpenAIView(messages) == AfterUser([System(system)], task)
    {
      messages := [OSystem(system)] + if task == "" then [] else [OUser(task)];
    }

    method Chat(c: Completion) returns (r: ChatResult)
      modifies this
      ensures r == Understood(OpenAIKind, c)
      ensures OpenAIView(messages) == AfterChat(old(OpenAIView(messages)), r)
      ensures r.ChatFailed? || r.calls == [] ==> messages == old(messages)
      ensures c.Chosen? && r.calls != [] ==>
        messages == old(messages) + [OAssistant(if c.structured != [] then c.content else c.reasoning, r.calls)]
    {
      if !c.Chosen? { return ChatFailed; }
      var text := c.content;
      var extra := [];
      if text == "" {
        extra := c.recovered;
        text := c.reasoning;
      }
      r := ChatDone(text, [], c.inTok, c.outTok);
      if |c.structured| > 0 {
        r := r.(calls := c.structured);
        messages := messages + [OAssistant(c.content, c.structured)];
      } else if |extra| > 0 {
        r := r.(calls := extra);
        messages := messages + [OAssistant(text, extra)];
      }
    }

    method AddToolResults(results: seq<ToolResult>)
      modifies this
      ensures OpenAIView(messages) == old(OpenAIView(messages)) + ResultMsgs(results)
    {
      for k := 0 to |results|
        invariant OpenAIView(messages) == old(OpenAIView(messages)) + ResultMsgs(results[..k])
      {
        var m := OTool(results[k].content, results[k].callID);
        assert OpenAIView(messages + [m]) == OpenAIView(messages) + [OpenAIMsg(m)];
        messages := messages + [m];
        assert results[..k + 1] == results[..k] + [results[k]];
        assert ResultMsgs(results[..k + 1]) == ResultMsgs(results[..k]) + [OpenAIMsg(m)];
      }
      assert results[..|results|] == results;
    }

    method ReplaceToolResults(repl: map<string, bytes>)
      modifies this
      ensures OpenAIView(messages) == Replaced(old(OpenAIView(messages)), repl)
      ensures |messages| == |old(messages)|
      ensures forall i | 0 <= i < |messages| && !old(messages)[i].OTool? :: messages[i] == old(messages)[i]
    {
      if |repl| == 0 { return; }
      for i := 0 to |messages|
        invariant |messages| == |old(messages)|
        invariant forall j | i <= j < |messages| :: messages[j] == old(messages)[j]
        invariant forall j | 0 <= j < i ::
          OpenAIMsg(messages[j]) == ReplaceMsg(OpenAIMsg(old(messages)[j]), repl)
          && (!old(messages)[j].OTool? ==> messages[j] == old(messages)[j])
      {
        var m := messages[i];
        if m.OTool? && m.callID in repl {
          messages := messages[i := OTool(repl[m.callID], m.callID)];
        }
      }
    }

    method AddUserMessage(text: string)
      modifies this
      ensures OpenAIView(messages) == AfterUser(old(OpenAIView(messages)), text)
    {
      if text == "" { return; }
      messages := messages + [OUser(text)];
    }
  }

  // ----- Anthropic: tool results are blocks nested in user messages

  datatype AnthropicMessage = AnthropicMessage(fromUser: bool, content: seq<Block>)

  function BlockMsgs(b: Block): History {
    match b
    case TextBlock(t) => [User(t)]
    case ToolResultBlock(id, c, _) => [Result(id, c)]
    case _ => []
  }

  function BlocksMsgs(bs: seq<Block>): History {
    if bs == [] then [] else BlocksMsgs(bs[..|bs| - 1]) + BlockMsgs(bs[|bs| - 1])
  }

  function AnthropicMsgs(m: AnthropicMessage): History {
    if m.fromUser then BlocksMsgs(m.content) else [Assistant(ToolUses(m.content))]
  }

  function AnthropicView(ms: seq<AnthropicMessage>): History {
    if ms == [] then [] else AnthropicView(ms[..|ms| - 1]) + AnthropicMsgs(ms[|ms| - 1])
  }

  /** One block a result, in order, with its error flag. */
  function ResultBlocks(rs: seq<ToolResult>): (bs: seq<Block>)
    ensures |bs| == |rs|
  {
    seq(|rs|, i requires 0 <= i < |rs| => ToolResultBlock(rs[i].callID, rs[i].content, rs[i].isError))
  }

  function ReplaceBlock(b: Block, repl: map<string, bytes>): Block {
    if b.ToolResultBlock? && b.toolUseID in repl then b.(content := repl[b.toolUseID]) else b
  }

  function ReplaceBlocks(bs: seq<Block>, repl: map<string, bytes>): (r: seq<Block>)
    ensures |r| == |bs|
  {
    seq(|bs|, i requires 0 <= i < |bs| => ReplaceBlock(bs[i], repl))
  }

  /** The nested replacement keeps every message, block, call ID and error flag in place. */
  function ReplaceNested(ms: seq<AnthropicMessage>, repl: map<string, bytes>): (r: seq<AnthropicMessage>)
    ensures |r| == |ms|
  {
    seq(|ms|, i requires 0 <= i < |ms| => AnthropicMessage(ms[i].fromUser, ReplaceBlocks(ms[i].content, repl)))
  }

  lemma {:induction false} BlocksReplaced(bs: seq<Block>, repl: map<string, bytes>)
    ensures BlocksMsgs(ReplaceBlocks(bs, repl)) == Replaced(BlocksMsgs(bs), repl)
    ensures ToolUses(ReplaceBlocks(bs, repl)) == ToolUses(bs)
  {
    if bs != [] {
      var init, last := bs[..|bs| - 1], bs[|bs| - 1];
      assert ReplaceBlocks(bs, repl)[..|bs| - 1] == ReplaceBlocks(init, repl);
      BlocksReplaced(init, repl);
      BlockReplaced(last, repl);
      ReplacedAppend(BlocksMsgs(init), BlockMsgs(last), repl);
    }
  }

  lemma BlockReplaced(b: Block, repl: map<string, bytes>)
    ensures BlockMsgs(ReplaceBlock(b, repl)) == Replaced(BlockMsgs(b), repl)
    ensures ReplaceBlock(b, repl).ToolUse? <==> b.ToolUse?
  {
  }

  lemma TextMessage(text: string)
    ensures AnthropicMsgs(AnthropicMessage(true, [TextBlock(text)])) == [User(text)]
  {
    var bs := [TextBlock(text)];
    assert bs[..0] == [];
    assert BlocksMsgs(bs) == BlocksMsgs(bs[..0]) + BlockMsgs(bs[0]);
  }

  /** Replacing nested blocks is replacing results in the conversation. */
  lemma {:induction false} NestedReplacementRefines(ms: seq<AnthropicMessage>, repl: map<string, bytes>)
    ensures AnthropicView(ReplaceNested(ms, repl)) == Replaced(AnthropicView(ms), repl)
  {
    if ms != [] {
      var last := ms[|ms| - 1];
      assert ReplaceNested(ms, repl)[..|ms| - 1] == ReplaceNested(ms[..|ms| - 1], repl);
      NestedReplacementRefines(ms[..|ms| - 1], repl);
      BlocksReplaced(last.content, repl);
      ReplacedAppend(AnthropicView(ms[..|ms| - 1]), AnthropicMsgs(last), repl);
    }
  }

  lemma AnthropicViewSnoc(ms: seq<AnthropicMessage>, m: AnthropicMessage)
    ensures AnthropicView(ms + [m]) == AnthropicView(ms) + AnthropicMsgs(m)
  {
    assert (ms + [m])[..|ms|] == ms;
  }

  class AnthropicProvider {
    var messages: seq<AnthropicMessage>

    constructor (task: string)
      ensures AnthropicView(messages) == AfterUser([], task)
    {
      TextMessage(task);
      AnthropicViewSnoc([], AnthropicMessage(true, [TextBlock(task)]));
      messages := if task == "" then [] else [AnthropicMessage(true, [TextBlock(task)])];
    }

    method Chat(c: Completion) returns (r: ChatResult)
      modifies this
      ensures r == Understood(AnthropicKind, c)
      ensures AnthropicView(messages) == AfterChat(old(AnthropicView(messages)), r)
      ensures r.ChatFailed? || r.calls == [] ==> messages == old(messages)
      ensures c.Blocks? && r.calls != [] ==> messages == old(messages) + [AnthropicMessage(false, c.blocks)]
    {
      if !c.Blocks? { return ChatFailed; }
      var text, uses := "", [];
      for k := 0 to |c.blocks|
        invariant text == Texts(c.blocks[..k]) && uses == ToolUses(c.blocks[..k])
      {
        assert c.blocks[..k + 1][..k] == c.blocks[..k];
        match c.blocks[k]
        case TextBlock(t) => text := text + t;
        case ToolUse(call) => uses := uses + [call];
        case _ =>
      }
      assert c.blocks[..|c.blocks|] == c.blocks;
      r := ChatDone(text, [], c.inTok, c.outTok);
      if c.stopForTools && |uses| > 0 {
        r := r.(calls := uses);
        AnthropicViewSnoc(messages, AnthropicMessage(false, c.blocks));
        messages := messages + [AnthropicMessage(false, c.blocks)];
      }
    }

    method AddToolResults(results: seq<ToolResult>)
      modifies this
      ensures AnthropicView(messages) == old(AnthropicView(messages)) + ResultMsgs(results)
      ensures messages == old(messages) + [AnthropicMessage(true, ResultBlocks(results))]
    {
      var blocks: seq<Block> := [];
      for k := 0 to |results|
        invariant blocks == ResultBlocks(results[..k])
        invariant BlocksMsgs(blocks) == ResultMsgs(results[..k])
      {
        var b := ToolResultBlock(results[k].callID, results[k].content, results[k].isError);
        assert (blocks + [b])[..|blocks|] == blocks;
        blocks := blocks + [b];
        assert results[..k + 1] == results[..k] + [results[k]];
        assert ResultMsgs(results[..k + 1]) == ResultMsgs(results[..k]) + BlockMsgs(b);
      }
      assert results[..|results|] == results;
      AnthropicViewSnoc(messages, AnthropicMessage(true, blocks));
      messages := messages + [AnthropicMessage(true, blocks)];
    }

    method ReplaceToolResults(repl: map<string, bytes>)
      modifies this
      ensures messages == ReplaceNested(old(messages), repl)
      ensures AnthropicView(messages) == Replaced(old(AnthropicView(messages)), repl)
    {
      NestedReplacementRefines(messages, repl);
      if |repl| == 0 {
        assert ReplaceNested(messages, repl) == messages by {
          forall i | 0 <= i < |messages| ensures ReplaceBlocks(messages[i].content, repl) == messages[i].content {}
        }
        return;
      }
      for mi := 0 to |messages|
        invariant |messages| == |old(messages)|
        invariant forall j | mi <= j < |messages| :: messages[j] == old(messages)[j]
        invariant forall j | 0 <= j < mi :: messages[j] == ReplaceNested(old(messages), repl)[j]
      {
        ReplaceInMessage(mi, repl);
      }
      assert messages == ReplaceNested(old(messages), repl);
    }

    /** The loop over one message's blocks. */
    method ReplaceInMessage(mi: nat, repl: map<string, bytes>)
      requires mi < |messages|
      modifies this
      ensures messages == old(messages)[mi :=
        AnthropicMessage(old(messages)[mi].fromUser, ReplaceBlocks(old(messages)[mi].content, repl))]
    {
      ghost var before := messages[mi].content;
      for bi := 0 to |messages[mi].content|
        invariant |messages| == |old(messages)| && |messages[mi].content| == |before|
        invariant messages == old(messages)[mi := AnthropicMessage(old(messages)[mi].fromUser, messages[mi].content)]
        invariant forall k | bi <= k < |before| :: messages[mi].content[k] == before[k]
        invariant forall k | 0 <= k < bi :: messages[mi].content[k] == ReplaceBlock(before[k], repl)
      {
        var tr := messages[mi].content[bi];
        if tr.ToolResultBlock? && tr.toolUseID in repl {
          var block := ToolResultBlock(tr.toolUseID, repl[tr.toolUseID], tr.isError);
          messages := messages[mi := messages[mi].(content := messages[mi].content[bi := block])];
        }
      }
      assert messages[mi].content == ReplaceBlocks(before, repl);
    }

    method AddUserMessage(text: string)
      modifies this
      ensures AnthropicView(messages) == AfterUser(old(AnthropicView(messages)), text)
    {
      if text == "" { return; }
      var m := AnthropicMessage(true, [TextBlock(text)]);
      TextMessage(text);
      AnthropicViewSnoc(messages, m);
      messages := messages + [m];
    }
  }

  // ----- the provider interface

  datatype LLMProvider = OpenAI(openai: OpenAIProvider) | Anthropic(anthropic: AnthropicProvider) {
    function Kind(): Kind {
      if OpenAI? then OpenAIKind else AnthropicKind
    }

    function Ref(): object {
      match this
      case OpenAI(p) => p
      case Anthropic(p) => p
    }

    /** The conversation this provider holds. */
    function View(): History
      reads Ref()
    {
      match this
      case OpenAI(p) => OpenAIView(p.messages)
      case Anthropic(p) => AnthropicView(p.messages)
    }

    method Chat(c: Completion) returns (r: ChatResult)
      modifies Ref()
      ensures r == Understood(Kind(), c)
      ensures View() == AfterChat(old(View()), r)
    {
      match this
      case OpenAI(p) => r := p.Chat(c);
      case Anthropic(p) => r := p.Chat(c);
    }

    method AddToolResults(results: seq<ToolResult>)
      modifies Ref()
      ensures View() == old(View()) + ResultMsgs(results)
    {
      match this
      case OpenAI(p) => p.AddToolResults(results);
      case Anthropic(p) => p.AddToolResults(results);
    }

    method ReplaceToolResults(repl: map<string, bytes>)
      modifies Ref()
      ensures View() == Replaced(old(View()), repl)
    {
      match this
      case OpenAI(p) => p.ReplaceToolResults(repl);
      case Anthropic(p) => p.ReplaceToolResults(repl);
    }

    method AddUserMessage(text: string)
      modifies Ref()
      ensures View() == AfterUser(old(View()), text)
    {
      match this
      case OpenAI(p) => p.AddUserMessage(text);
      case Anthropic(p) => p.AddUserMessage(text);
    }
  }
}
