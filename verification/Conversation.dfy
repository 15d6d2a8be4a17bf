/** The live agent loops of scripts/microbench/aiob_multiturn.py: what the conversation
    looks like over every run, whatever the model answers and the tools return. */
module Conversation {
  import opened Common
  import opened ToolCalls

  // The Anthropic loop.

  datatype Block = Thinking(thinking: string) | Text(text: string) | ToolUse(id: string, name: string, input: string)

  datatype Message =
    | User(prompt: string)
    | ToolResults(results: seq<(string, string)>)
    | Assistant(blocks: seq<Block>)

  /** The model answers a conversation; a tool's output may depend on when it runs. */
  datatype Agent = Agent(reply: seq<Message> -> seq<Block>, exec: (nat, string, string) -> string)

  function ToolUses(blocks: seq<Block>): seq<Block> {
    if blocks == [] then []
    else
      var last, earlier := blocks[|blocks| - 1], ToolUses(blocks[..|blocks| - 1]);
      if last.ToolUse? then earlier + [last] else earlier
  }

  lemma {:induction false} ToolUsesAreToolUses(blocks: seq<Block>)
    ensures forall b :: b in ToolUses(blocks) <==> b in blocks && b.ToolUse?
    decreases |blocks|
  {
    if blocks != [] {
      ToolUsesAreToolUses(blocks[..|blocks| - 1]);
      assert blocks == blocks[..|blocks| - 1] + [blocks[|blocks| - 1]];
    }
  }

  /** at lists, from left to right, the places of the tool uses in an answer. */
  ghost predicate UsesAt(at: seq<nat>, blocks: seq<Block>) {
    && Ascends(at) && (forall k :: 0 <= k < |at| ==> at[k] < |blocks|)
    && (forall i: nat :: i in at <==> i < |blocks| && blocks[i].ToolUse?)
  }

  lemma {:induction false} ToolUsePlaces(blocks: seq<Block>) returns (at: seq<nat>)
    ensures UsesAt(at, blocks) && |at| == |ToolUses(blocks)|
    ensures forall k :: 0 <= k < |at| ==> ToolUses(blocks)[k] == blocks[at[k]]
    decreases |blocks|
  {
    hide Ascends;
    at := [];
    if blocks == [] {
      AscendsNone();
    } else {
      var n := |blocks| - 1;
      var front := blocks[..n];
      at := ToolUsePlaces(front);
      assert forall i: nat :: i < n ==> front[i] == blocks[i];
      if blocks[n].ToolUse? {
        AscendsSnoc(at, n);
        at := at + [n];
      }
    }
  }

  /** Result k has the id of the tool use at place at[k], and what running it as tool number
      first + k returns. */
  ghost predicate ResultsAt(results: seq<(string, string)>, blocks: seq<Block>, at: seq<nat>, first: nat, agent: Agent)
  {
    && |results| == |at|
    && forall k :: 0 <= k < |at| ==>
         && at[k] < |blocks| && blocks[at[k]].ToolUse?
         && results[k] == (blocks[at[k]].id, agent.exec(first + k, blocks[at[k]].name, blocks[at[k]].input))
  }

  lemma AnsweredByPlace(results: seq<(string, string)>, blocks: seq<Block>, first: nat, agent: Agent)
    returns (at: seq<nat>)
    requires Answers(results, ToolUses(blocks), first, agent)
    ensures UsesAt(at, blocks) && ResultsAt(results, blocks, at, first, agent)
  {
    at := ToolUsePlaces(blocks);
    hide ToolUses;
  }

  predicate IsUserRole(m: Message) {
    m.User? || m.ToolResults?
  }

  /** results answer uses one by one, in order, by id; `first` tools ran before them. */
  ghost predicate Answers(results: seq<(string, string)>, uses: seq<Block>, first: nat, agent: Agent) {
    && |results| == |uses|
    && (forall k :: 0 <= k < |uses| ==> uses[k].ToolUse?)
    && (forall k :: 0 <= k < |uses| ==>
          results[k] == (uses[k].id, agent.exec(first + k, uses[k].name, uses[k].input)))
  }

  function Total(ns: seq<nat>): nat {
    if ns == [] then 0 else Total(ns[..|ns| - 1]) + ns[|ns| - 1]
  }

  lemma TotalSnoc(ns: seq<nat>, n: nat)
    ensures Total([]) == 0 && Total(ns + [n]) == Total(ns) + n
  {
    assert (ns + [n])[..|ns|] == ns;
  }

  /** Turn t of a conversation: the model's answer to everything before it, and the
      number of tools it asked for. */
  ghost predicate TurnAt(ms: seq<Message>, perTurn: seq<nat>, t: nat, agent: Agent)
    requires t < |perTurn| && 2 * t + 1 < |ms|
  {
    && ms[2 * t + 1] == Assistant(agent.reply(ms[..2 * t + 1]))
    && perTurn[t] == |ToolUses(ms[2 * t + 1].blocks)|
  }

  /** The user message after turn t answers exactly the tools that turn asked for. */
  ghost predicate AnsweredAt(ms: seq<Message>, perTurn: seq<nat>, t: nat, agent: Agent)
    requires t < |perTurn| && 2 * t + 2 < |ms|
  {
    && ms[2 * t + 1].Assistant? && ms[2 * t + 2].ToolResults?
    && Answers(ms[2 * t + 2].results, ToolUses(ms[2 * t + 1].blocks), Total(perTurn[..t]), agent)
    && perTurn[t] > 0
  }

  /** A conversation in which the first n turns are over and answered. */
  ghost predicate Answered(ms: seq<Message>, perTurn: seq<nat>, n: nat, prompt: string, agent: Agent)
    requires n <= |perTurn| && 2 * n < |ms|
  {
    && ms[0] == User(prompt)
    && (forall t :: 0 <= t < n ==> TurnAt(ms, perTurn, t, agent))
    && (forall t :: 0 <= t < n ==> AnsweredAt(ms, perTurn, t, agent))
  }

  /** A finished run: it ended at its first tool-free turn or at the turn limit. */
  ghost predicate Finished(ms: seq<Message>, perTurn: seq<nat>, maxTurns: nat, prompt: string, agent: Agent) {
    var n := |perTurn|;
    && n <= maxTurns
    && (|ms| == 2 * n + 1 || |ms| == 2 * n)
    && (|ms| == 2 * n + 1 ==> n == maxTurns && Answered(ms, perTurn, n, prompt, agent))
    && (|ms| == 2 * n ==>
          && 0 < n && perTurn[n - 1] == 0
          && Answered(ms, perTurn, n - 1, prompt, agent) && TurnAt(ms, perTurn, n - 1, agent))
  }

  lemma AnsweredSnoc(ms: seq<Message>, perTurn: seq<nat>, prompt: string, agent: Agent,
                     blocks: seq<Block>, results: seq<(string, string)>)
    requires |ms| == 2 * |perTurn| + 1 && Answered(ms, perTurn, |perTurn|, prompt, agent)
    requires blocks == agent.reply(ms)
    requires Answers(results, ToolUses(blocks), Total(perTurn), agent)
    ensures var ms', perTurn' := ms + [Assistant(blocks)], perTurn + [|ToolUses(blocks)|];
      && Answered(ms', perTurn', |perTurn|, prompt, agent)
      && TurnAt(ms', perTurn', |perTurn|, agent)
    ensures var ms', perTurn' := ms + [Assistant(blocks), ToolResults(results)], perTurn + [|ToolUses(blocks)|];
      results != [] ==> Answered(ms', perTurn', |perTurn'|, prompt, agent)
  {
    var n := |perTurn|;
    var perTurn' := perTurn + [|ToolUses(blocks)|];
    var a, b := ms + [Assistant(blocks)], ms + [Assistant(blocks), ToolResults(results)];
    assert a[..2 * n + 1] == ms && b[..2 * n + 1] == ms && perTurn'[..n] == perTurn;
    forall t | 0 <= t < n
      ensures TurnAt(a, perTurn', t, agent) && AnsweredAt(a, perTurn', t, agent)
      ensures TurnAt(b, perTurn', t, agent) && AnsweredAt(b, perTurn', t, agent)
    {
      assert TurnAt(ms, perTurn, t, agent) && AnsweredAt(ms, perTurn, t, agent);
      assert a[..2 * t + 1] == ms[..2 * t + 1] && b[..2 * t + 1] == ms[..2 * t + 1];
      assert perTurn'[..t] == perTurn[..t];
    }
  }

  class AnthropicLoop {
    var messages: seq<Message>
    var toolUseCount: nat
    var perTurn: seq<nat>

    constructor (prompt: string)
      ensures messages == [User(prompt)] && toolUseCount == 0 && perTurn == []
    {
      messages, toolUseCount, perTurn := [User(prompt)], 0, [];
    }

    /** Runs the tools of one answer, in order. */
    method ExecuteTools(blocks: seq<Block>, agent: Agent) returns (results: seq<(string, string)>)
      modifies this`toolUseCount
      ensures Answers(results, ToolUses(blocks), old(toolUseCount), agent)
      ensures exists at :: UsesAt(at, blocks) && ResultsAt(results, blocks, at, old(toolUseCount), agent)
      ensures toolUseCount == old(toolUseCount) + |ToolUses(blocks)|
    {
      results := [];
      for i := 0 to |blocks|
        invariant Answers(results, ToolUses(blocks[..i]), old(toolUseCount), agent)
        invariant toolUseCount == old(toolUseCount) + |results|
      {
        assert blocks[..i + 1][..i] == blocks[..i];
        var blk := blocks[i];
        if blk.ToolUse? {
          var out := agent.exec(toolUseCount, blk.name, blk.input);
          toolUseCount := toolUseCount + 1;
          results := results + [(blk.id, out)];
        }
      }
      assert blocks[..|blocks|] == blocks;
      ghost var at := AnsweredByPlace(results, blocks, old(toolUseCount), agent);
    }

    /** The turn loop of _run_session_anthropic. */
    method Run(prompt: string, maxTurns: nat, agent: Agent)
      requires messages == [User(prompt)] && toolUseCount == 0 && perTurn == []
      modifies this
      ensures Finished(messages, perTurn, maxTurns, prompt, agent)
      ensures toolUseCount == Total(perTurn)
    {
      for turn := 0 to maxTurns
        invariant |perTurn| == turn && |messages| == 2 * turn + 1
        invariant Answered(messages, perTurn, turn, prompt, agent)
        invariant toolUseCount == Total(perTurn)
      {
        hide Answered, ToolUses, Answers;
        var blocks := agent.reply(messages);
        ghost var before := messages;
        messages := messages + [Assistant(blocks)];
        var results := ExecuteTools(blocks, agent);
        AnsweredSnoc(before, perTurn, prompt, agent, blocks, results);
        TotalSnoc(perTurn, |ToolUses(blocks)|);
        NoneToAnswer(results, ToolUses(blocks), Total(perTurn), agent);
        perTurn := perTurn + [|ToolUses(blocks)|];
        if results != [] {
          messages := messages + [ToolResults(results)];
          assert messages == before + [Assistant(blocks), ToolResults(results)];
        }
        if results == [] {
          break;
        }
      }
    }
  }

  lemma NoneToAnswer(results: seq<(string, string)>, uses: seq<Block>, first: nat, agent: Agent)
    requires Answers(results, uses, first, agent)
    ensures results == [] <==> |uses| == 0
  {
  }

  /** Turn t, message by message: the assistant message is the model's answer to everything
      before it, perTurn[t] is the number of its tool uses, and the message after it, if there
      is one, holds one result per tool use, in the order of the answer. */
  ghost predicate TurnIntact(ms: seq<Message>, perTurn: seq<nat>, t: nat, agent: Agent)
    requires t < |perTurn|
  {
    && 2 * t + 1 < |ms| && ms[2 * t + 1] == Assistant(agent.reply(ms[..2 * t + 1]))
    && exists at ::
         && UsesAt(at, ms[2 * t + 1].blocks) && perTurn[t] == |at|
         && (2 * t + 2 < |ms| ==>
               && ms[2 * t + 2].ToolResults?
               && ResultsAt(ms[2 * t + 2].results, ms[2 * t + 1].blocks, at, Total(perTurn[..t]), agent))
  }

  /** Roles strictly alternate from user to assistant, every later user message gives
      one result per tool use of the assistant message before it, by id and in order,
      and only the last turn may have asked for no tool. */
  lemma ConversationSafety(ms: seq<Message>, perTurn: seq<nat>, maxTurns: nat, prompt: string, agent: Agent)
    requires Finished(ms, perTurn, maxTurns, prompt, agent)
    ensures |ms| == 2 * |perTurn| + 1 || |ms| == 2 * |perTurn|
    ensures ms != [] ==> ms[0] == User(prompt)
    ensures forall i :: 0 <= i < |ms| ==> (IsUserRole(ms[i]) <==> i % 2 == 0)
    ensures forall t :: 0 <= t < |perTurn| ==> TurnIntact(ms, perTurn, t, agent)
    ensures forall t :: 0 <= t < |perTurn| && perTurn[t] == 0 ==> t == |perTurn| - 1
    ensures |perTurn| < maxTurns ==> perTurn != [] && perTurn[|perTurn| - 1] == 0
  {
    forall i | 0 <= i < |ms| ensures IsUserRole(ms[i]) <==> i % 2 == 0 {
      MessageAt(ms, perTurn, maxTurns, prompt, agent, i);
    }
    forall t | 0 <= t < |perTurn| ensures TurnIntact(ms, perTurn, t, agent) {
      assert TurnAt(ms, perTurn, t, agent);
      if 2 * t + 2 < |ms| {
        assert AnsweredAt(ms, perTurn, t, agent);
      }
      IntactTurn(ms, perTurn, t, agent);
    }
    forall t | 0 <= t < |perTurn| - 1 ensures perTurn[t] > 0 {
      assert AnsweredAt(ms, perTurn, t, agent);
    }
  }

  lemma IntactTurn(ms: seq<Message>, perTurn: seq<nat>, t: nat, agent: Agent)
    requires t < |perTurn| && 2 * t + 1 < |ms| && TurnAt(ms, perTurn, t, agent)
    requires 2 * t + 2 < |ms| ==> AnsweredAt(ms, perTurn, t, agent)
    ensures TurnIntact(ms, perTurn, t, agent)
  {
    var blocks := ms[2 * t + 1].blocks;
    var at := ToolUsePlaces(blocks);
    hide ToolUses, UsesAt;
    assert UsesAt(at, blocks) && perTurn[t] == |at|;
  }

  lemma MessageAt(ms: seq<Message>, perTurn: seq<nat>, maxTurns: nat, prompt: string, agent: Agent, i: nat)
    requires Finished(ms, perTurn, maxTurns, prompt, agent) && i < |ms|
    ensures IsUserRole(ms[i]) <==> i % 2 == 0
  {
    if i % 2 == 1 {
      var t := i / 2;
      assert i == 2 * t + 1;
      assert TurnAt(ms, perTurn, t, agent);
    } else if i > 0 {
      var t := i / 2 - 1;
      assert i == 2 * t + 2;
      assert AnsweredAt(ms, perTurn, t, agent);
    }
  }

  // The OSS loop.

  datatype Chat<Args> =
    | SystemMsg(content: string)
    | UserMsg(content: string)
    | AssistantMsg(answer: Option<string>, calls: seq<Call<Args>>)
    | ToolMsg(callId: string, name: string, output: string)

  /** What one streamed answer consists of: visible text and tool-call fragments. */
  datatype Stream = Stream(text: seq<string>, fragments: seq<Fragment>)

  datatype ChatAgent<!Args> = ChatAgent(
    reply: seq<Chat<Args>> -> Stream, exec: (nat, string, Args) -> string, reader: Reader<Args>)

  /** One turn as it goes into the conversation. */
  datatype ChatTurn<Args> = ChatTurn(answer: Option<string>, calls: seq<Call<Args>>, outputs: seq<string>)

  function ToolMsgs<Args>(calls: seq<Call<Args>>, outputs: seq<string>): (r: seq<Chat<Args>>)
    requires |calls| == |outputs|
    ensures |r| == |calls|
    ensures forall k :: 0 <= k < |calls| ==> r[k] == ToolMsg(calls[k].id, calls[k].name, outputs[k])
  {
    seq(|calls|, k requires 0 <= k < |calls| => ToolMsg(calls[k].id, calls[k].name, outputs[k]))
  }

  lemma ToolMsgsSnoc<Args>(calls: seq<Call<Args>>, outputs: seq<string>, call: Call<Args>, output: string)
    requires |calls| == |outputs|
    ensures ToolMsgs(calls + [call], outputs + [output])
         == ToolMsgs(calls, outputs) + [ToolMsg(call.id, call.name, output)]
  {
  }

  /** The assistant message of a turn, then one tool message per call. */
  function TurnMsgs<Args>(t: ChatTurn<Args>): seq<Chat<Args>>
    requires |t.calls| == |t.outputs|
  {
    [AssistantMsg(t.answer, t.calls)] + ToolMsgs(t.calls, t.outputs)
  }

  lemma TurnMsgsRead<Args>(t: ChatTurn<Args>)
    requires |t.calls| == |t.outputs|
    ensures TurnMsgs(t) != [] && TurnMsgs(t)[0] == AssistantMsg(t.answer, t.calls)
    ensures TurnMsgs(t)[1..] == ToolMsgs(t.calls, t.outputs)
  {
  }

  ghost predicate Paired<Args(!new)>(turns: seq<ChatTurn<Args>>) {
    turns == [] ||
    var t := turns[|turns| - 1];
    |t.calls| == |t.outputs| && Paired(turns[..|turns| - 1])
  }

  ghost function Transcript<Args(!new)>(turns: seq<ChatTurn<Args>>): seq<Chat<Args>>
    requires Paired(turns)
  {
    if turns == [] then []
    else Transcript(turns[..|turns| - 1]) + TurnMsgs(turns[|turns| - 1])
  }

  /** The user message, after the system message if there is one. */
  function Opening<Args>(system: string, user: string): (r: seq<Chat<Args>>)
    ensures |r| == if system == "" then 1 else 2
    ensures r[|r| - 1] == UserMsg(user) && (|r| == 2 ==> r[0] == SystemMsg(system))
  {
    if system != "" then [SystemMsg(system), UserMsg(user)] else [UserMsg(user)]
  }

  function CallTotal<Args>(turns: seq<ChatTurn<Args>>): nat {
    if turns == [] then 0 else CallTotal(turns[..|turns| - 1]) + |turns[|turns| - 1].calls|
  }

  /** t is the model's answer to the conversation `before`, its tool calls assembled from
      the stream and executed in order after firstTool earlier ones. */
  ghost predicate IsTurn<Args(!new)>(t: ChatTurn<Args>, index: nat, firstTool: nat, before: seq<Chat<Args>>,
                                     agent: ChatAgent<Args>)
  {
    var stream := agent.reply(before);
    && |t.calls| == |t.outputs|
    && t.answer == (if stream.text == [] then None else Some(Concat(stream.text)))
    && (exists indices :: CallsOf(t.calls, indices, stream.fragments, index, agent.reader))
    && (forall k :: 0 <= k < |t.calls| ==>
          t.outputs[k] == agent.exec(firstTool + k, t.calls[k].name, t.calls[k].args))
  }

  /** A turn of the OSS loop, read off the stream: its answer is the streamed texts one after
      the other, absent when there is none; its calls come in ascending order of the indices
      that occur in the stream, each read off its own pieces, and run in that order. */
  lemma ChatTurnMeaning<Args(!new)>(t: ChatTurn<Args>, index: nat, firstTool: nat, before: seq<Chat<Args>>,
                                    agent: ChatAgent<Args>)
    returns (text: string, cuts: seq<nat>, indices: seq<int>)
    requires IsTurn(t, index, firstTool, before, agent)
    ensures InPieces(text, agent.reply(before).text, cuts)
    ensures t.answer == if agent.reply(before).text == [] then None else Some(text)
    ensures var fs := agent.reply(before).fragments;
      && |indices| == |t.calls| == |t.outputs|
      && (forall a, b :: 0 <= a < b < |indices| ==> indices[a] < indices[b])
      && (forall i :: i in indices <==> exists f :: f in fs && f.index == i)
      && (forall k :: 0 <= k < |t.calls| ==> CallIsRead(t.calls[k], fs, index, indices[k], agent.reader))
      && (forall k :: 0 <= k < |t.calls| ==>
            t.outputs[k] == agent.exec(firstTool + k, t.calls[k].name, t.calls[k].args))
  {
    var stream := agent.reply(before);
    text := Concat(stream.text);
    cuts := ConcatInPieces(stream.text);
    hide CallIsRead, InPieces, Concat;
    indices :| CallsOf(t.calls, indices, stream.fragments, index, agent.reader);
    forall k | 0 <= k < |t.calls|
      ensures CallIsRead(t.calls[k], stream.fragments, index, indices[k], agent.reader)
    {
      CallMeaning(t.calls, indices, stream.fragments, index, agent.reader, k);
    }
    forall i ensures i in indices <==> exists f :: f in stream.fragments && f.index == i {
      OfIndexOccurs(stream.fragments, i);
    }
  }

  /** The turns of a run: each is the model's answer to all that came before it. */
  ghost predicate ChatTurns<Args(!new)>(turns: seq<ChatTurn<Args>>, opening: seq<Chat<Args>>, agent: ChatAgent<Args>) {
    turns == [] ||
    var n, front := |turns| - 1, turns[..|turns| - 1];
    && Paired(turns)
    && ChatTurns(front, opening, agent)
    && IsTurn(turns[n], n, CallTotal(front), opening + Transcript(front), agent)
  }

  lemma ChatTurnsSnoc<Args(!new)>(turns: seq<ChatTurn<Args>>, t: ChatTurn<Args>, opening: seq<Chat<Args>>,
                                  agent: ChatAgent<Args>)
    requires Paired(turns) && ChatTurns(turns, opening, agent)
    requires IsTurn(t, |turns|, CallTotal(turns), opening + Transcript(turns), agent)
    ensures Paired(turns + [t]) && ChatTurns(turns + [t], opening, agent)
    ensures Transcript(turns + [t]) == Transcript(turns) + TurnMsgs(t)
    ensures CallTotal(turns + [t]) == CallTotal(turns) + |t.calls|
  {
    assert (turns + [t])[..|turns|] == turns;
  }

  lemma NoTurnsYet<Args(!new)>(opening: seq<Chat<Args>>, agent: ChatAgent<Args>)
    ensures Paired<Args>([]) && ChatTurns([], opening, agent)
    ensures opening + Transcript([]) == opening && CallTotal<Args>([]) == 0
  {
  }

  class OssLoop<Args(!new)> {
    var messages: seq<Chat<Args>>
    var toolUseCount: nat
    var perTurn: seq<nat>

    constructor (system: string, user: string)
      ensures messages == Opening(system, user) && toolUseCount == 0 && perTurn == []
    {
      messages := if system != "" then [SystemMsg(system)] else [];
      toolUseCount, perTurn := 0, [];
      new;
      messages := messages + [UserMsg(user)];
    }

    /** Runs the calls of one answer, appending one tool message each. */
    method ExecuteCalls(calls: seq<Call<Args>>, agent: ChatAgent<Args>) returns (outputs: seq<string>)
      modifies this`messages, this`toolUseCount
      ensures |outputs| == |calls|
      ensures forall k :: 0 <= k < |calls| ==>
        outputs[k] == agent.exec(old(toolUseCount) + k, calls[k].name, calls[k].args)
      ensures messages == old(messages) + ToolMsgs(calls, outputs)
      ensures toolUseCount == old(toolUseCount) + |calls|
    {
      outputs := [];
      for i := 0 to |calls|
        invariant |outputs| == i && toolUseCount == old(toolUseCount) + i
        invariant forall k :: 0 <= k < i ==>
          outputs[k] == agent.exec(old(toolUseCount) + k, calls[k].name, calls[k].args)
        invariant messages == old(messages) + ToolMsgs(calls[..i], outputs)
      {
        var out := agent.exec(toolUseCount, calls[i].name, calls[i].args);
        toolUseCount := toolUseCount + 1;
        messages := messages + [ToolMsg(calls[i].id, calls[i].name, out)];
        ToolMsgsSnoc(calls[..i], outputs, calls[i], out);
        assert calls[..i + 1] == calls[..i] + [calls[i]];
        outputs := outputs + [out];
      }
      assert calls[..|calls|] == calls;
    }

    /** One turn: the model answers, its tool calls are assembled from the stream, then run. */
    method RunTurn(turn: nat, agent: ChatAgent<Args>) returns (calls: seq<Call<Args>>, ghost t: ChatTurn<Args>)
      modifies this`messages, this`toolUseCount
      ensures IsTurn(t, turn, old(toolUseCount), old(messages), agent)
      ensures t.calls == calls
      ensures messages == old(messages) + TurnMsgs(t)
      ensures toolUseCount == old(toolUseCount) + |calls|
    {
      hide CallsOf, ToolMsgs, Concat;
      var stream := agent.reply(messages);
      var indices;
      calls, indices := Assemble(stream.fragments, turn, agent.reader);
      var answer := if stream.text == [] then None else Some(Concat(stream.text));
      messages := messages + [AssistantMsg(answer, calls)];
      var outputs := ExecuteCalls(calls, agent);
      t := ChatTurn(answer, calls, outputs);
    }

    /** The turn loop of _run_session_oss.  The ghost result lists its turns. */
    method Run(system: string, user: string, maxTurns: nat, agent: ChatAgent<Args>)
      returns (ghost turns: seq<ChatTurn<Args>>)
      requires messages == Opening(system, user) && toolUseCount == 0 && perTurn == []
      modifies this
      ensures Paired(turns) && ChatTurns(turns, Opening(system, user), agent)
      ensures messages == Opening(system, user) + Transcript(turns)
      ensures |perTurn| == |turns| <= maxTurns
      ensures forall t :: 0 <= t < |turns| ==> perTurn[t] == |turns[t].calls|
      ensures forall t :: 0 <= t < |turns| - 1 ==> perTurn[t] > 0
      ensures |turns| < maxTurns ==> turns != [] && perTurn[|turns| - 1] == 0
      ensures toolUseCount == CallTotal(turns)
    {
      hide Paired, ChatTurns, Transcript, CallTotal, IsTurn, TurnMsgs, Opening;
      turns := [];
      ghost var opening := Opening<Args>(system, user);
      NoTurnsYet(opening, agent);
      for turn := 0 to maxTurns
        invariant |turns| == |perTurn| == turn
        invariant Paired(turns) && ChatTurns(turns, opening, agent)
        invariant messages == opening + Transcript(turns)
        invariant forall t :: 0 <= t < |turns| ==> perTurn[t] == |turns[t].calls| > 0
        invariant toolUseCount == CallTotal(turns)
      {
        ghost var before := Transcript(turns);
        ghost var t;
        var calls;
        calls, t := RunTurn(turn, agent);
        ChatTurnsSnoc(turns, t, opening, agent);
        assert opening + before + TurnMsgs(t) == opening + (before + TurnMsgs(t));
        turns := turns + [t];
        perTurn := perTurn + [|calls|];
        if calls == [] {
          break;
        }
      }
    }
  }

  /** The messages between two assistant messages: one per call, by id and name, in order. */
  ghost predicate IsBatch<Args(!new)>(tools: seq<Chat<Args>>, calls: seq<Call<Args>>) {
    && |tools| == |calls|
    && (forall k :: 0 <= k < |tools| ==> tools[k].ToolMsg?)
    && (forall k :: 0 <= k < |tools| ==> tools[k].callId == calls[k].id && tools[k].name == calls[k].name)
  }

  ghost predicate BatchAt<Args(!new)>(ms: seq<Chat<Args>>, p: nat)
    requires p < |ms| && ms[p].AssistantMsg?
  {
    var next := p + 1 + |ms[p].calls|;
    && next <= |ms|
    && IsBatch(ms[p + 1..next], ms[p].calls)
    && (next < |ms| ==> ms[next].AssistantMsg?)
  }

  /** In a flat message list, every assistant message is followed at once by exactly its
      own tool messages, in order, and only then by the next assistant message. */
  ghost predicate BatchesIntact<Args(!new)>(ms: seq<Chat<Args>>) {
    && (ms == [] || ms[0].AssistantMsg?)
    && (forall p :: 0 <= p < |ms| ==> ms[p].AssistantMsg? || ms[p].ToolMsg?)
    && (forall p :: 0 <= p < |ms| && ms[p].AssistantMsg? ==> BatchAt(ms, p))
  }

  /** Batch integrity over every OSS run. */
  lemma {:induction false} TranscriptIntact<Args(!new)>(turns: seq<ChatTurn<Args>>)
    requires Paired(turns)
    ensures BatchesIntact(Transcript(turns))
    decreases |turns|
  {
    if turns != [] {
      var front, t := turns[..|turns| - 1], turns[|turns| - 1];
      TranscriptIntact(front);
      AppendTurn(Transcript(front), t);
    }
  }

  lemma AppendTurn<Args(!new)>(ms: seq<Chat<Args>>, t: ChatTurn<Args>)
    requires BatchesIntact(ms) && |t.calls| == |t.outputs|
    ensures BatchesIntact(ms + TurnMsgs(t))
  {
    hide BatchAt;
    var all := ms + TurnMsgs(t);
    assert all[|ms|] == AssistantMsg(t.answer, t.calls);
    forall p | 0 <= p < |all| && all[p].AssistantMsg? ensures BatchAt(all, p) {
      if p < |ms| {
        OldBatch(ms, TurnMsgs(t), p);
      } else if p == |ms| {
        NewBatch(ms, t);
      }
    }
  }

  lemma OldBatch<Args(!new)>(ms: seq<Chat<Args>>, tail: seq<Chat<Args>>, p: nat)
    requires p < |ms| && ms[p].AssistantMsg? && BatchAt(ms, p)
    requires tail != [] && tail[0].AssistantMsg?
    ensures BatchAt(ms + tail, p)
  {
    hide IsBatch;
    var next := p + 1 + |ms[p].calls|;
    assert (ms + tail)[p + 1..next] == ms[p + 1..next];
    assert (ms + tail)[|ms|] == tail[0];
  }

  lemma NewBatch<Args(!new)>(ms: seq<Chat<Args>>, t: ChatTurn<Args>)
    requires |t.calls| == |t.outputs|
    ensures (ms + TurnMsgs(t))[|ms|].AssistantMsg? && BatchAt(ms + TurnMsgs(t), |ms|)
  {
    var all := ms + TurnMsgs(t);
    assert all[|ms|] == AssistantMsg(t.answer, t.calls);
    assert all[|ms| + 1..|ms| + 1 + |t.calls|] == ToolMsgs(t.calls, t.outputs);
  }
}
