/**
 The tool-use loop of `complete_with_tools`: the transcript it builds with the model, the tool
 calls it makes, and the totals it sums.
 */
module ToolLoop {
  import opened Options
  import opened Pricing
  import opened Rounding

  // ---------------------------------------------------------------- data

  /** A content block of a model reply; `Other` stands for block types the loop passes over. */
  datatype Block = Words(text: string) | ToolUse(id: string, name: string, input: string) | Other

  datatype ToolResult = ToolResult(id: string, content: string)

  /** Messages by role: the prompt and the tool results are the user's. */
  datatype Message = Prompt(text: string) | Assistant(blocks: seq<Block>) | Results(results: seq<ToolResult>)

  /** A reply without a stop reason carries the empty one. */
  datatype Reply = Reply(content: seq<Block>, stop: string, inTokens: nat, outTokens: nat) | ApiError

  datatype ToolCall = ToolCall(name: string, arguments: string, result: string)

  /** The world: the n-th upstream reply, the n-th tool invocation (which may
      raise), the string strip, the requested model and the rate. */
  datatype Env = Env(replies: nat -> Reply, invoke: (nat, string, string) -> Option<string>, strip: string -> string,
                     model: string, rate: real) {
    function Resolved(): string { ResolveModel(model) }
  }

  datatype Phase = Running | Stopped | RaisedError

  datatype Loop = Loop(messages: seq<Message>, calls: seq<ToolCall>, totalIn: nat, totalOut: nat, cost: int,
                       text: string, stop: string, iterations: nat, phase: Phase)

  // ---------------------------------------------------------------- specification

  /** The blocks that go into the transcript; an empty input becomes the empty object. */
  function Kept(blocks: seq<Block>): seq<Block> {
    if blocks == [] then []
    else
      var init, last := blocks[..|blocks| - 1], blocks[|blocks| - 1];
      if last.Other? then Kept(init) else Kept(init) + [KeptBlock(last)]
  }

  function KeptBlock(b: Block): (kept: Block)
    ensures kept.ToolUse? == b.ToolUse?
  {
    match b
    case ToolUse(id, name, input) => ToolUse(id, name, ArgumentsOf(input))
    case _ => b
  }

  function ArgumentsOf(input: string): string { if input == "" then "{}" else input }

  function Uses(blocks: seq<Block>): (uses: seq<Block>)
    ensures forall k :: 0 <= k < |uses| ==> uses[k].ToolUse?
  {
    if blocks == [] then []
    else
      var init, last := blocks[..|blocks| - 1], blocks[|blocks| - 1];
      if last.ToolUse? then Uses(init) + [last] else Uses(init)
  }

  function JoinWords(blocks: seq<Block>): string {
    if blocks == [] then ""
    else
      var init, last := blocks[..|blocks| - 1], blocks[|blocks| - 1];
      if last.Words? then JoinWords(init) + last.text else JoinWords(init)
  }

  /** Invoking the tools in order, numbered from n on; None when one raises. */
  function InvokeAll(env: Env, uses: seq<Block>, n: nat): Option<seq<string>>
    requires forall k :: 0 <= k < |uses| ==> uses[k].ToolUse?
  {
    if uses == [] then Some([])
    else
      match env.invoke(n, uses[0].name, uses[0].input)
      case None => None
      case Some(payload) =>
        match InvokeAll(env, uses[1..], n + 1)
        case None => None
        case Some(rest) => Some([payload] + rest)
  }

  function ResultsOf(uses: seq<Block>, payloads: seq<string>): seq<ToolResult>
    requires |uses| == |payloads| && forall k :: 0 <= k < |uses| ==> uses[k].ToolUse?
  {
    seq(|uses|, k requires 0 <= k < |uses| => ToolResult(uses[k].id, payloads[k]))
  }

  function CallsOf(uses: seq<Block>, results: seq<ToolResult>): seq<ToolCall>
    requires |uses| == |results| && forall k :: 0 <= k < |uses| ==> uses[k].ToolUse?
  {
    seq(|uses|, k requires 0 <= k < |uses| => ToolCall(uses[k].name, uses[k].input, results[k].content))
  }

  function StopOf(reply: Reply): string
    requires reply.Reply?
  {
    if reply.stop == "" then "end_turn" else reply.stop
  }

  /** The state once the reply's usage and text are taken and the assistant message is appended. */
  function Replied(env: Env, st: Loop, reply: Reply): Loop
    requires reply.Reply?
  {
    Loop(st.messages + [Assistant(Kept(reply.content))], st.calls,
         st.totalIn + reply.inTokens, st.totalOut + reply.outTokens,
         st.cost + Cost(env.Resolved(), env.rate, reply.inTokens, reply.outTokens),
         env.strip(JoinWords(reply.content)), StopOf(reply),
         st.iterations + 1, Running)
  }

  /** One iteration. */
  function Turn(env: Env, st: Loop): Loop {
    var reply := env.replies(st.iterations);
    if reply.ApiError? then st.(phase := RaisedError)
    else
      var st1 := Replied(env, st, reply);
      var uses := Uses(Kept(reply.content));
      if st1.stop != "tool_use" || uses == [] then st1.(phase := Stopped)
      else
        match InvokeAll(env, uses, |st.calls|)
        case None => st1.(phase := RaisedError)
        case Some(payloads) =>
          InvokeAllLength(env, uses, |st.calls|);
          var results := ResultsOf(uses, payloads);
          st1.(messages := st1.messages + [Results(results)], calls := st1.calls + CallsOf(uses, results))
  }

  lemma InvokeNext(env: Env, uses: seq<Block>, k: nat, n: nat)
    requires k < |uses| && forall j :: 0 <= j < |uses| ==> uses[j].ToolUse?
    ensures var payload, rest := env.invoke(n, uses[k].name, uses[k].input), InvokeAll(env, uses[k + 1..], n + 1);
            InvokeAll(env, uses[k..], n) ==
            if payload.None? || rest.None? then None else Some([payload.value] + rest.value)
  {
    assert uses[k..][0] == uses[k] && uses[k..][1..] == uses[k + 1..];
  }

  lemma {:induction false} InvokeAllLength(env: Env, uses: seq<Block>, n: nat)
    requires forall k :: 0 <= k < |uses| ==> uses[k].ToolUse?
    ensures InvokeAll(env, uses, n).Some? ==> |InvokeAll(env, uses, n).value| == |uses|
  {
    if uses != [] && env.invoke(n, uses[0].name, uses[0].input).Some? { InvokeAllLength(env, uses[1..], n + 1); }
  }

  function Start(prompt: string): Loop { Loop([Prompt(prompt)], [], 0, 0, 0, "", "end_turn", 0, Running) }

  /** The loop after at most n iterations. */
  function Turns(env: Env, prompt: string, n: nat): Loop {
    if n == 0 then Start(prompt)
    else
      var st := Turns(env, prompt, n - 1);
      if st.phase == Running then Turn(env, st) else st
  }

  // ---------------------------------------------------------------- the loop

  /** The variables of the loop. */
  class Conversation {
    var messages: seq<Message>
    var toolCalls: seq<ToolCall>
    var totalIn: nat
    var totalOut: nat
    var totalCost: int
    var text: string
    var stop: string
    var iterations: nat

    function St(phase: Phase): Loop
      reads this
    {
      Loop(messages, toolCalls, totalIn, totalOut, totalCost, text, stop, iterations, phase)
    }

    constructor (prompt: string)
      ensures St(Running) == Start(prompt)
    {
      messages, toolCalls := [Prompt(prompt)], [];
      totalIn, totalOut, totalCost := 0, 0, 0;
      text, stop, iterations := "", "end_turn", 0;
    }

    /** Splits a reply into transcript blocks, text and tool uses, in one pass. */
    method ReadReply(content: seq<Block>) returns (assistant: seq<Block>, text: string, uses: seq<Block>)
      ensures assistant == Kept(content) && text == JoinWords(content) && uses == Uses(Kept(content))
    {
      assistant, text, uses := [], "", [];
      for k := 0 to |content|
        invariant assistant == Kept(content[..k]) && text == JoinWords(content[..k]) && uses == Uses(Kept(content[..k]))
      {
        assert content[..k] + [content[k]] == content[..k + 1];
        ReadLast(content[..k], content[k]);
        match content[k] {
          case Words(t) =>
            assistant := assistant + [content[k]];
            text := text + t;
          case ToolUse(id, name, input) =>
            var use := ToolUse(id, name, ArgumentsOf(input));
            assistant := assistant + [use];
            uses := uses + [use];
          case Other =>
        }
      }
      assert content[..|content|] == content;
    }

    /** Runs the tools of one assistant message; stops with false when one raises. */
    method RunTools(env: Env, uses: seq<Block>) returns (ok: bool)
      requires forall k :: 0 <= k < |uses| ==> uses[k].ToolUse?
      modifies this`messages, this`toolCalls
      ensures ok == InvokeAll(env, uses, |old(toolCalls)|).Some?
      ensures ok ==> |InvokeAll(env, uses, |old(toolCalls)|).value| == |uses|
                     && var results := ResultsOf(uses, InvokeAll(env, uses, |old(toolCalls)|).value);
                        messages == old(messages) + [Results(results)]
                          && toolCalls == old(toolCalls) + CallsOf(uses, results)
      ensures !ok ==> messages == old(messages)
    {
      InvokeAllLength(env, uses, |toolCalls|);
      ghost var all := InvokeAll(env, uses, |toolCalls|);
      var results := [];
      for k := 0 to |uses|
        invariant |results| == k && messages == old(messages) && |toolCalls| == |old(toolCalls)| + k
        invariant all.Some? <==> InvokeAll(env, uses[k..], |toolCalls|).Some?
        invariant all.Some? ==> all.value[k..] == InvokeAll(env, uses[k..], |toolCalls|).value
        invariant all.Some? ==> results == ResultsOf(uses, all.value)[..k]
        invariant all.Some? ==> toolCalls == old(toolCalls) + CallsOf(uses, ResultsOf(uses, all.value))[..k]
      {
        var payload := env.invoke(|toolCalls|, uses[k].name, uses[k].input);
        InvokeNext(env, uses, k, |toolCalls|);
        if payload.None? {
          return false;
        }
        if all.Some? {
          assert all.value[k] == all.value[k..][0];
          assert all.value[k + 1..] == all.value[k..][1..];
        }
        toolCalls := toolCalls + [ToolCall(uses[k].name, uses[k].input, payload.value)];
        results := results + [ToolResult(uses[k].id, payload.value)];
      }
      if all.Some? {
        assert ResultsOf(uses, all.value)[..|uses|] == ResultsOf(uses, all.value);
        assert CallsOf(uses, ResultsOf(uses, all.value))[..|uses|] == CallsOf(uses, ResultsOf(uses, all.value));
      }
      messages := messages + [Results(results)];
      ok := true;
    }

    /** Takes the usage, the text and the assistant message of a reply. */
    method TakeReply(env: Env, reply: Reply) returns (uses: seq<Block>)
      requires reply.Reply?
      modifies this
      ensures St(Running) == Replied(env, old(St(Running)), reply) && uses == Uses(Kept(reply.content))
    {
      iterations := iterations + 1;
      totalIn, totalOut := totalIn + reply.inTokens, totalOut + reply.outTokens;
      totalCost := totalCost + Cost(env.Resolved(), env.rate, reply.inTokens, reply.outTokens);
      stop := StopOf(reply);
      var assistant, words, toolUses := ReadReply(reply.content);
      text := env.strip(words);
      messages := messages + [Assistant(assistant)];
      uses := toolUses;
    }

    /** One iteration; a raised error leaves a conversation that is thrown away. */
    method Iterate(env: Env) returns (phase: Phase)
      modifies this
      ensures phase == Turn(env, old(St(Running))).phase
      ensures phase != RaisedError ==> St(phase) == Turn(env, old(St(Running)))
    {
      var reply := env.replies(iterations);
      if reply.ApiError? {
        return RaisedError;
      }
      var uses := TakeReply(env, reply);
      if stop != "tool_use" || uses == [] {
        return Stopped;
      }
      var ok := RunTools(env, uses);
      phase := if ok then Running else RaisedError;
    }
  }

  lemma ReadLast(blocks: seq<Block>, b: Block)
    ensures Kept(blocks + [b]) == if b.Other? then Kept(blocks) else Kept(blocks) + [KeptBlock(b)]
    ensures JoinWords(blocks + [b]) == if b.Words? then JoinWords(blocks) + b.text else JoinWords(blocks)
    ensures Uses(Kept(blocks + [b])) == if b.ToolUse? then Uses(Kept(blocks)) + [KeptBlock(b)] else Uses(Kept(blocks))
  {
    assert (blocks + [b])[..|blocks|] == blocks;
    assert (Kept(blocks) + [KeptBlock(b)])[..|Kept(blocks)|] == Kept(blocks);
  }

  lemma {:induction false} KeptAppend(a: seq<Block>, b: seq<Block>)
    ensures Kept(a + b) == Kept(a) + Kept(b)
    decreases |b|
  {
    if b == [] {
      assert a + b == a;
    } else {
      assert (a + b)[..|a + b| - 1] == a + b[..|b| - 1];
      KeptAppend(a, b[..|b| - 1]);
    }
  }

  lemma {:induction false} UsesAppend(a: seq<Block>, b: seq<Block>)
    ensures Uses(a + b) == Uses(a) + Uses(b)
    decreases |b|
  {
    if b == [] {
      assert a + b == a;
    } else {
      assert (a + b)[..|a + b| - 1] == a + b[..|b| - 1];
      UsesAppend(a, b[..|b| - 1]);
    }
  }

  lemma {:induction false} WordsAppend(a: seq<Block>, b: seq<Block>)
    ensures JoinWords(a + b) == JoinWords(a) + JoinWords(b)
    decreases |b|
  {
    if b == [] {
      assert a + b == a;
    } else {
      assert (a + b)[..|a + b| - 1] == a + b[..|b| - 1];
      WordsAppend(a, b[..|b| - 1]);
    }
  }

  /** Reading a reply goes part by part, in order. */
  lemma ReplyReads(a: seq<Block>, b: seq<Block>)
    ensures Kept(a + b) == Kept(a) + Kept(b) && Uses(a + b) == Uses(a) + Uses(b)
    ensures JoinWords(a + b) == JoinWords(a) + JoinWords(b)
  {
    KeptAppend(a, b);
    UsesAppend(a, b);
    WordsAppend(a, b);
  }

  /** Of one block: text is kept and joined, a tool use is kept with an empty input made the empty
      object, any other block is passed over. */
  lemma BlockReads(b: Block)
    ensures Kept([b]) == match b
                         case Words(_) => [b]
                         case ToolUse(id, name, input) => [ToolUse(id, name, if input == "" then "{}" else input)]
                         case Other => []
    ensures Uses([b]) == if b.ToolUse? then [b] else []
    ensures JoinWords([b]) == if b.Words? then b.text else ""
  {
    ReadLast([], b);
    UsesLast([], b);
    assert [] + [b] == [b];
    assert Kept([]) == [] && Uses([]) == [] && JoinWords([]) == "";
  }

  lemma UsesLast(blocks: seq<Block>, b: Block)
    ensures Uses(blocks + [b]) == if b.ToolUse? then Uses(blocks) + [b] else Uses(blocks)
  {
    assert (blocks + [b])[..|blocks|] == blocks;
  }

  /** The whole loop; None when the API or a tool raises. */
  method CompleteWithTools(env: Env, prompt: string, maxIterations: nat) returns (result: Option<Loop>)
    ensures var end := Turns(env, prompt, maxIterations); result == if end.phase == RaisedError then None else Some(end)
  {
    var talk := new Conversation(prompt);
    var phase := Running;
    var n := 0;
    while n < maxIterations && phase == Running
      invariant n <= maxIterations && phase != RaisedError
      invariant talk.St(phase) == Turns(env, prompt, n)
    {
      phase := talk.Iterate(env);
      n := n + 1;
      if phase == RaisedError {
        TurnsStay(env, prompt, n, maxIterations);
        return None;
      }
    }
    if phase != Running {
      TurnsStay(env, prompt, n, maxIterations);
    }
    result := Some(talk.St(phase));
  }

  lemma {:induction false} TurnsStay(env: Env, prompt: string, n: nat, m: nat)
    requires n <= m && Turns(env, prompt, n).phase != Running
    ensures Turns(env, prompt, m) == Turns(env, prompt, n)
    decreases m
  {
    if n < m {
      TurnsStay(env, prompt, n, m - 1);
      assert Turns(env, prompt, m - 1).phase != Running;
    }
  }

  // ---------------------------------------------------------------- the transcript

  /** The results answer the tool uses of the message before, one to one, in order, by id. */
  predicate Answers(blocks: seq<Block>, results: seq<ToolResult>) {
    && |results| == |Uses(blocks)|
    && forall k :: 0 <= k < |results| ==> Uses(blocks)[k].ToolUse? && results[k].id == Uses(blocks)[k].id
  }

  /** Roles alternate from the user's prompt on, and every later user message answers the tool uses before it. */
  predicate Alternates(messages: seq<Message>, prompt: string) {
    && messages != []
    && if |messages| == 1 then messages[0] == Prompt(prompt)
       else
         var n := |messages| - 1;
         && Alternates(messages[..n], prompt)
         && if messages[n].Assistant? then !messages[n - 1].Assistant?
            else messages[n].Results? && messages[n - 1].Assistant? && messages[n].results != []
                 && Answers(messages[n - 1].blocks, messages[n].results)
  }

  /** The assistant messages in order. */
  function Assistants(messages: seq<Message>): seq<seq<Block>> {
    if messages == [] then []
    else
      var init, last := messages[..|messages| - 1], messages[|messages| - 1];
      if last.Assistant? then Assistants(init) + [last.blocks] else Assistants(init)
  }

  /** What the first n replies put into the transcript. */
  function Spoken(env: Env, n: nat): seq<seq<Block>> {
    if n == 0 then []
    else if env.replies(n - 1).Reply? then Spoken(env, n - 1) + [Kept(env.replies(n - 1).content)]
    else Spoken(env, n - 1)
  }

  /** The calls behind the answered assistant messages, in order: name and arguments from the tool
      use, the result from its answer. */
  function CallsIn(messages: seq<Message>): seq<ToolCall> {
    if |messages| < 2 then []
    else
      var n := |messages| - 1;
      if messages[n].Results? && messages[n - 1].Assistant? && Answers(messages[n - 1].blocks, messages[n].results)
      then CallsIn(messages[..n]) + CallsOf(Uses(messages[n - 1].blocks), messages[n].results)
      else CallsIn(messages[..n])
  }

  function SumIn(env: Env, n: nat): nat {
    if n == 0 then 0 else SumIn(env, n - 1) + (if env.replies(n - 1).Reply? then env.replies(n - 1).inTokens else 0)
  }

  function SumOut(env: Env, n: nat): nat {
    if n == 0 then 0 else SumOut(env, n - 1) + (if env.replies(n - 1).Reply? then env.replies(n - 1).outTokens else 0)
  }

  /** What holds after every iteration that did not raise. */
  ghost predicate Inv(env: Env, prompt: string, st: Loop) {
    && Alternates(st.messages, prompt)
    && st.calls == CallsIn(st.messages)
    && st.totalIn == SumIn(env, st.iterations) && st.totalOut == SumOut(env, st.iterations)
    && Assistants(st.messages) == Spoken(env, st.iterations)
    && |st.messages| == 2 * st.iterations + (if st.phase == Stopped then 0 else 1)
    && st.messages[|st.messages| - 1].Assistant? == (st.phase == Stopped)
  }

  lemma AssistantNext(messages: seq<Message>, prompt: string, blocks: seq<Block>)
    requires Alternates(messages, prompt) && !messages[|messages| - 1].Assistant?
    ensures var next := messages + [Assistant(blocks)];
            && Alternates(next, prompt)
            && CallsIn(next) == CallsIn(messages) && Assistants(next) == Assistants(messages) + [blocks]
  {
    assert (messages + [Assistant(blocks)])[..|messages|] == messages;
  }

  lemma ResultsNext(messages: seq<Message>, prompt: string, payloads: seq<string>)
    requires Alternates(messages, prompt)
    requires Pending(messages) != [] && |payloads| == |Pending(messages)| && AllUses(Pending(messages))
    ensures var results := ResultsOf(Pending(messages), payloads);
            var next := messages + [Results(results)];
            && Alternates(next, prompt)
            && CallsIn(next) == CallsIn(messages) + CallsOf(Pending(messages), results)
            && Assistants(next) == Assistants(messages)
  {
    var results := ResultsOf(Pending(messages), payloads);
    assert (messages + [Results(results)])[..|messages|] == messages;
    assert Answers(messages[|messages| - 1].blocks, results);
  }

  predicate AllUses(uses: seq<Block>) { forall k :: 0 <= k < |uses| ==> uses[k].ToolUse? }

  /** The tool uses of the last message. */
  function Pending(messages: seq<Message>): seq<Block> {
    if messages != [] && messages[|messages| - 1].Assistant? then Uses(messages[|messages| - 1].blocks) else []
  }

  lemma RepliedKeeps(env: Env, prompt: string, st: Loop)
    requires Inv(env, prompt, st) && st.phase == Running && env.replies(st.iterations).Reply?
    ensures Inv(env, prompt, Replied(env, st, env.replies(st.iterations)).(phase := Stopped))
  {
    AssistantNext(st.messages, prompt, Kept(env.replies(st.iterations).content));
  }

  lemma AnsweredKeeps(env: Env, prompt: string, st: Loop, payloads: seq<string>)
    requires Inv(env, prompt, st) && st.phase == Stopped
    requires Pending(st.messages) != [] && |payloads| == |Pending(st.messages)| && AllUses(Pending(st.messages))
    ensures var results := ResultsOf(Pending(st.messages), payloads);
            Inv(env, prompt, st.(messages := st.messages + [Results(results)],
                                 calls := st.calls + CallsOf(Pending(st.messages), results), phase := Running))
  {
    ResultsNext(st.messages, prompt, payloads);
  }

  lemma TurnKeeps(env: Env, prompt: string, st: Loop, st': Loop)
    requires Inv(env, prompt, st) && st.phase == Running && st' == Turn(env, st) && st'.phase != RaisedError
    ensures Inv(env, prompt, st') && st'.iterations == st.iterations + 1
  {
    var reply := env.replies(st.iterations);
    var st1 := Replied(env, st, reply).(phase := Stopped);
    RepliedKeeps(env, prompt, st);
    var uses := Uses(Kept(reply.content));
    if st1.stop == "tool_use" && uses != [] {
      InvokeAllLength(env, uses, |st.calls|);
      AnsweredKeeps(env, prompt, st1, InvokeAll(env, uses, |st.calls|).value);
    }
  }

  /** For every behaviour of the model and the tools, a conversation that does not raise has a
      well-formed transcript, its tool calls and token totals are those of the transcript, and its
      last role tells a normal stop (the assistant's) from running into the cap (the user's). */
  lemma {:induction false} TranscriptWellFormed(env: Env, prompt: string, n: nat, st: Loop)
    requires st == Turns(env, prompt, n) && st.phase != RaisedError
    ensures Inv(env, prompt, st) && st.iterations <= n
    ensures if st.messages[|st.messages| - 1].Assistant? then st.phase == Stopped
            else st.phase == Running && st.iterations == n
  {
    if n > 0 {
      var before := Turns(env, prompt, n - 1);
      TranscriptWellFormed(env, prompt, n - 1, before);
      if before.phase == Running { TurnKeeps(env, prompt, before, st); }
    }
  }

  /** What the last reply decides: the final text, and whether the loop stopped. */
  ghost predicate DecidedBy(env: Env, st: Loop, last: Reply) {
    && last.Reply? && st.text == env.strip(JoinWords(last.content))
    && st.stop == (if last.stop == "" then "end_turn" else last.stop)
    && (st.phase == Stopped <==> StopOf(last) != "tool_use" || Uses(Kept(last.content)) == [])
  }

  lemma TurnDecides(env: Env, st: Loop, st': Loop)
    requires st' == Turn(env, st) && st'.phase != RaisedError
    ensures st'.iterations == st.iterations + 1 && DecidedBy(env, st', env.replies(st.iterations))
  {
  }

  /** A normal stop is one the model asked for: its last reply has another stop reason or no tool use. */
  lemma {:induction false} StopReason(env: Env, prompt: string, n: nat, st: Loop)
    requires n > 0 && st == Turns(env, prompt, n) && st.phase != RaisedError
    ensures st.iterations > 0 && DecidedBy(env, st, env.replies(st.iterations - 1))
  {
    var before := Turns(env, prompt, n - 1);
    if before.phase == Running {
      TurnDecides(env, before, st);
    } else {
      StopReason(env, prompt, n - 1, st);
    }
  }

  // ---------------------------------------------------------------- what the tools returned

  /** The tool uses of the assistant messages that a results message follows, in order. */
  function AnsweredUses(messages: seq<Message>): (uses: seq<Block>)
    ensures AllUses(uses)
  {
    if |messages| < 2 then []
    else
      var n := |messages| - 1;
      if messages[n].Results? && messages[n - 1].Assistant? then
        AnsweredUses(messages[..n]) + Uses(messages[n - 1].blocks)
      else AnsweredUses(messages[..n])
  }

  function Contents(results: seq<ToolResult>): seq<string> {
    seq(|results|, k requires 0 <= k < |results| => results[k].content)
  }

  /** The contents of the results messages, in order. */
  function ResultContents(messages: seq<Message>): seq<string> {
    if messages == [] then []
    else
      var n := |messages| - 1;
      if messages[n].Results? then ResultContents(messages[..n]) + Contents(messages[n].results)
      else ResultContents(messages[..n])
  }

  /** Call for call: the name and arguments of the tool use it answers, the tool's own answer to these,
      and the content that went back to the model. */
  ghost predicate Truthful(env: Env, st: Loop) {
    var uses, contents := AnsweredUses(st.messages), ResultContents(st.messages);
    && |st.calls| == |uses| == |contents|
    && forall k :: 0 <= k < |st.calls| ==> TrueCall(env, k, st.calls[k], uses[k], contents[k])
  }

  predicate TrueCall(env: Env, k: nat, call: ToolCall, use: Block, content: string) {
    && use.ToolUse? && call.name == use.name && call.arguments == use.input
    && env.invoke(k, call.name, call.arguments) == Some(call.result) && content == call.result
  }

  /** Some tool raises, the k-th use being the (n + k)-th invocation. */
  predicate SomeRaises(env: Env, uses: seq<Block>, n: nat)
    requires AllUses(uses)
  {
    exists k :: 0 <= k < |uses| && env.invoke(n + k, uses[k].name, uses[k].input).None?
  }

  /** The tools are invoked one by one, in order; none of them raises exactly when all have answered. */
  lemma {:induction false} InvokeAllIs(env: Env, uses: seq<Block>, n: nat)
    requires AllUses(uses)
    ensures InvokeAll(env, uses, n).None? <==> SomeRaises(env, uses, n)
    ensures InvokeAll(env, uses, n).Some? ==>
              && |InvokeAll(env, uses, n).value| == |uses|
              && forall k :: 0 <= k < |uses| ==>
                   env.invoke(n + k, uses[k].name, uses[k].input) == Some(InvokeAll(env, uses, n).value[k])
  {
    if uses != [] {
      var rest := uses[1..];
      InvokeAllIs(env, rest, n + 1);
      assert env.invoke(n, uses[0].name, uses[0].input) == env.invoke(n + 0, uses[0].name, uses[0].input);
      forall k | 0 <= k < |rest|
        ensures env.invoke(n + 1 + k, rest[k].name, rest[k].input)
                == env.invoke(n + (k + 1), uses[k + 1].name, uses[k + 1].input)
      {
        assert n + 1 + k == n + (k + 1);
      }
      assert forall k :: 1 <= k < |uses| ==> uses[k] == rest[k - 1];
    }
  }

  /** An iteration raises exactly when the model's API does, or a tool of a reply that asks for tools. */
  lemma TurnRaises(env: Env, st: Loop)
    ensures var reply := env.replies(st.iterations);
            Turn(env, st).phase == RaisedError <==>
            reply.ApiError? || (reply.stop == "tool_use" && SomeRaises(env, Uses(Kept(reply.content)), |st.calls|))
  {
    var reply := env.replies(st.iterations);
    if reply.Reply? {
      InvokeAllIs(env, Uses(Kept(reply.content)), |st.calls|);
      StopIs(reply);
    }
  }

  lemma StopIs(reply: Reply)
    requires reply.Reply?
    ensures StopOf(reply) == "tool_use" <==> reply.stop == "tool_use"
  {
    assert "end_turn"[0] != "tool_use"[0];
  }

  lemma MessageNext(messages: seq<Message>, next: Message)
    ensures var all := messages + [next];
            && AnsweredUses(all) == AnsweredUses(messages) + (if next.Results? then Pending(messages) else [])
            && ResultContents(all) == ResultContents(messages) + (if next.Results? then Contents(next.results) else [])
  {
    assert (messages + [next])[..|messages|] == messages;
  }

  lemma AnswersAreTrue(env: Env, st: Loop, uses: seq<Block>, payloads: seq<string>)
    requires Truthful(env, st) && AllUses(uses) && uses == Pending(st.messages)
    requires InvokeAll(env, uses, |st.calls|) == Some(payloads) && |payloads| == |uses|
    ensures var results := ResultsOf(uses, payloads);
            Truthful(env, st.(messages := st.messages + [Results(results)], calls := st.calls + CallsOf(uses, results)))
  {
    var n, results := |st.calls|, ResultsOf(uses, payloads);
    MessageNext(st.messages, Results(results));
    forall k | 0 <= k < |uses|
      ensures TrueCall(env, n + k, CallsOf(uses, results)[k], uses[k], Contents(results)[k])
    {
      AnswerIsTrue(env, uses, payloads, n, k);
    }
  }

  lemma AnswerIsTrue(env: Env, uses: seq<Block>, payloads: seq<string>, n: nat, k: nat)
    requires AllUses(uses) && InvokeAll(env, uses, n) == Some(payloads) && |payloads| == |uses| && k < |uses|
    ensures var results := ResultsOf(uses, payloads);
            TrueCall(env, n + k, CallsOf(uses, results)[k], uses[k], Contents(results)[k])
  {
    InvokeAllIs(env, uses, n);
  }

  /** Over every conversation that does not raise: the k-th call has the name and arguments of the k-th
      tool use that was answered, its result is what that tool returned for them as the k-th
      invocation, and that is the content that went back to the model. */
  lemma {:induction false} CallsAreTrue(env: Env, prompt: string, n: nat)
    requires Turns(env, prompt, n).phase != RaisedError
    ensures Truthful(env, Turns(env, prompt, n))
  {
    if n > 0 {
      var st := Turns(env, prompt, n - 1);
      CallsAreTrue(env, prompt, n - 1);
      if st.phase == Running { TurnIsTrue(env, st); }
    }
  }

  lemma TurnIsTrue(env: Env, st: Loop)
    requires Truthful(env, st) && Turn(env, st).phase != RaisedError
    ensures Truthful(env, Turn(env, st))
  {
    var reply := env.replies(st.iterations);
    var st1, uses := Replied(env, st, reply), Uses(Kept(reply.content));
    MessageNext(st.messages, Assistant(Kept(reply.content)));
    if st1.stop == "tool_use" && uses != [] {
      InvokeAllLength(env, uses, |st.calls|);
      AnswersAreTrue(env, st1, uses, InvokeAll(env, uses, |st.calls|).value);
    }
  }

  // ---------------------------------------------------------------- what it costs

  /** The distance between the summed cost and the unrounded cost of the summed tokens. */
  function CostError(env: Env, st: Loop): real {
    st.cost as real - ExactCost(env.Resolved(), env.rate, st.totalIn, st.totalOut)
  }

  /** One more call adds at most half a unit of error. */
  lemma CostErrorStep(env: Env, st: Loop, reply: Reply)
    requires reply.Reply?
    ensures -0.5 <= CostError(env, Replied(env, st, reply)) - CostError(env, st) <= 0.5
  {
    ExactAdds(env.Resolved(), env.rate, st.totalIn, st.totalOut, reply.inTokens, reply.outTokens);
    var exact := ExactCost(env.Resolved(), env.rate, reply.inTokens, reply.outTokens);
    HalfEvenIsNearest(exact, Cost(env.Resolved(), env.rate, reply.inTokens, reply.outTokens));
  }

  /** After k calls the summed cost is within k half units of the unrounded cost of the summed tokens. */
  lemma {:induction false} CostErrorBound(env: Env, prompt: string, n: nat)
    requires Turns(env, prompt, n).phase != RaisedError
    ensures var st := Turns(env, prompt, n);
            -0.5 * st.iterations as real <= CostError(env, st) <= 0.5 * st.iterations as real
  {
    if n == 0 {
      ExactIsLinear(env.Resolved(), env.rate, 0, 0);
    } else {
      var st := Turns(env, prompt, n - 1);
      CostErrorBound(env, prompt, n - 1);
      if st.phase == Running {
        CostErrorStep(env, st, env.replies(st.iterations));
        TurnCosts(env, st);
      }
    }
  }

  lemma TurnCosts(env: Env, st: Loop)
    requires Turn(env, st).phase != RaisedError
    ensures CostError(env, Turn(env, st)) == CostError(env, Replied(env, st, env.replies(st.iterations)))
    ensures Turn(env, st).iterations == st.iterations + 1
  {
  }
}