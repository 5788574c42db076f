/** The conversation as the agent loop sees it, whatever the provider's message format. */
module Conversation {
  import opened ByteText

  datatype Call = Call(id: string, name: string, input: string)

  datatype ToolResult = ToolResult(callID: string, content: bytes, isError: bool)

  /** An assistant turn is recorded only when it calls tools. */
  datatype Msg =
    | System(text: string)
    | User(text: string)
    | Assistant(calls: seq<Call>)
    | Result(callID: string, content: bytes)

  type History = seq<Msg>

  function ResultMsgs(rs: seq<ToolResult>): (h: History)
    ensures |h| == |rs|
  {
    seq(|rs|, i requires 0 <= i < |rs| => Result(rs[i].callID, rs[i].content))
  }

  function ReplaceMsg(m: Msg, repl: map<string, bytes>): Msg {
    if m.Result? && m.callID in repl then m.(content := repl[m.callID]) else m
  }

  /** Swaps the content of the named results; nothing is added, dropped or moved. */
  function Replaced(h: History, repl: map<string, bytes>): (r: History)
    ensures |r| == |h| && forall i | 0 <= i < |h| :: r[i] == ReplaceMsg(h[i], repl)
  {
    seq(|h|, i requires 0 <= i < |h| => ReplaceMsg(h[i], repl))
  }

  lemma ReplacedAppend(h: History, g: History, repl: map<string, bytes>)
    ensures Replaced(h + g, repl) == Replaced(h, repl) + Replaced(g, repl)
  {
  }

  /** The tool results of a history, in order. */
  function Results(h: History): History {
    if h == [] then []
    else Results(h[..|h| - 1]) + if h[|h| - 1].Result? then [h[|h| - 1]] else []
  }

  lemma {:induction false} ResultsAppend(h: History, g: History)
    ensures Results(h + g) == Results(h) + Results(g)
  {
    if g == [] {
      assert h + g == h;
    } else {
      assert (h + g)[..|h + g| - 1] == h + g[..|g| - 1];
      ResultsAppend(h, g[..|g| - 1]);
    }
  }

  lemma {:induction false} ResultsOfResults(h: History)
    requires forall i | 0 <= i < |h| :: h[i].Result?
    ensures Results(h) == h
  {
    if h != [] {
      ResultsOfResults(h[..|h| - 1]);
      assert h == h[..|h| - 1] + [h[|h| - 1]];
    }
  }

  lemma {:induction false} ResultsReplaced(h: History, repl: map<string, bytes>)
    ensures Results(Replaced(h, repl)) == Replaced(Results(h), repl)
  {
    if h != [] {
      assert Replaced(h, repl)[..|h| - 1] == Replaced(h[..|h| - 1], repl);
      ResultsReplaced(h[..|h| - 1], repl);
    }
  }

  // ----- the shape of a conversation

  /** What happens to a conversation after its seed: a round of calls and their results, or a retry card. */
  datatype Turn = Round(calls: seq<Call>) | Card(text: string)

  function BlankMsg(m: Msg): Msg {
    if m.Result? then m.(content := []) else m
  }

  /** A history with the contents of its tool results forgotten. */
  function Skeleton(h: History): (s: History)
    ensures |s| == |h|
  {
    seq(|h|, i requires 0 <= i < |h| => BlankMsg(h[i]))
  }

  /** The messages a turn leaves: the calls and one result for each in order, or one user message.
      An empty card leaves none. */
  function Layout(t: Turn): History {
    match t
    case Round(calls) => [Assistant(calls)] + seq(|calls|, i requires 0 <= i < |calls| => Result(calls[i].id, []))
    case Card(text) => if text == "" then [] else [User(text)]
  }

  function Layouts(ts: seq<Turn>): History {
    if ts == [] then [] else Layouts(ts[..|ts| - 1]) + Layout(ts[|ts| - 1])
  }

  /** The history is the seed followed by exactly these turns. */
  ghost predicate Follows(h: History, seed: History, ts: seq<Turn>) {
    Skeleton(h) == Skeleton(seed) + Layouts(ts)
  }

  lemma FollowsReplaced(h: History, seed: History, ts: seq<Turn>, repl: map<string, bytes>)
    requires Follows(h, seed, ts)
    ensures Follows(Replaced(h, repl), seed, ts)
  {
    assert Skeleton(Replaced(h, repl)) == Skeleton(h);
  }

  lemma FollowsNext(h: History, seed: History, ts: seq<Turn>, added: History, t: Turn)
    requires Follows(h, seed, ts) && Skeleton(added) == Layout(t)
    ensures Follows(h + added, seed, ts + [t])
  {
    assert Skeleton(h + added) == Skeleton(h) + Skeleton(added);
    assert (ts + [t])[..|ts|] == ts;
  }
}
