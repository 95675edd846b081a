/** The agent loop of `src/agent/graph.py`: a two-node state machine in
    which `reason` asks the language model for the next message and `tools`
    runs the file tools the model asked for. The model is an oracle; the
    conversation state is a list of messages that each node's update is
    appended to. */
module Agent {
  import opened Text
  import opened Sandbox
  import opened FileTools

  datatype ToolCall = ToolCall(id: string, name: string, args: map<string, string>)

  datatype Message =
    | SystemMessage(content: string)
    | HumanMessage(content: string)
    | AIMessage(content: string, toolCalls: seq<ToolCall>)
    | ToolMessage(content: string, toolCallId: string, toolName: string)

  /** What the language model answers: text and the tool calls it wants made. */
  datatype Reply = Reply(content: string, toolCalls: seq<ToolCall>)

  const SystemPrompt: string :=
    "You are Agent Zero, a versatile autonomous AI assistant.\n"
    + "Your goal is to complete the user's request efficiently, whether it involves data processing, content creation, or system operations.\n"
    + "\n"
    + "GUIDELINES:\n"
    + "1. ANALYZE the request to understand the goal (e.g., \"save a recipe\", \"summarize a file\").\n"
    + "2. PLAN your steps. Do you need to read a file first? Or just write one?\n"
    + "3. USE TOOLS. You interact with the world via tools. Use 'write_file' to save output, 'read_file' to gather context, and 'list_files' to explore.\n"
    + "4. OBSERVE & ITERATE. If a tool fails (e.g., file not found), analyze the error and try a fix.\n"
    + "5. BE CONCISE. Focus on the action.\n"

  /** The tools bound to the model and run by the tool node, in order. */
  const BoundTools: seq<string> := ["write_file", "read_file", "list_files"]

  /** The system text: the fixed prompt, then the current date (already
      formatted as weekday, day, month and year). */
  function PromptText(today: string): (r: string)
    ensures StartsWith(r, SystemPrompt)
    ensures EndsWith(r, today)
  {
    var head := SystemPrompt + "\n\nCurrent Date: ";
    assert (head + today)[..|SystemPrompt|] == SystemPrompt;
    assert (head + today)[|head + today| - |today|..] == today;
    head + today
  }

  /** What `reason_node` sends the model: the system message, then the
      conversation unchanged and in order. */
  function Request(today: string, messages: seq<Message>): (r: seq<Message>)
    ensures |r| == |messages| + 1
    ensures r[0].SystemMessage? && r[0].content == PromptText(today)
    ensures r[1..] == messages
  {
    [SystemMessage(PromptText(today))] + messages
  }

  /** `reason_node`: a one-message update holding the model's response to
      the request. */
  function ReasonNode(llm: seq<Message> -> Reply, today: string, messages: seq<Message>): (update: seq<Message>)
    ensures |update| == 1 && update[0].AIMessage?
    ensures var reply := llm(Request(today, messages));
      update[0].content == reply.content && update[0].toolCalls == reply.toolCalls
  {
    var reply := llm(Request(today, messages));
    [AIMessage(reply.content, reply.toolCalls)]
  }

  datatype Route = ToTools | ToEnd

  /** `router`: looks only at the last message, which is the model's. */
  function Router(messages: seq<Message>): (r: Route)
    requires |messages| > 0 && messages[|messages| - 1].AIMessage?
    ensures r == ToTools <==> messages[|messages| - 1].toolCalls != []
  {
    if messages[|messages| - 1].toolCalls != [] then ToTools else ToEnd
  }

  /** The route does not depend on anything before the last message. */
  lemma RouterLooksAtLastOnly(a: seq<Message>, b: seq<Message>, last: Message)
    requires last.AIMessage?
    ensures Router(a + [last]) == Router(b + [last])
  {
    assert (a + [last])[|a + [last]| - 1] == last;
    assert (b + [last])[|b + [last]| - 1] == last;
  }

  /** The bound tool a call names, if any. */
  datatype Tool = WriteTool | ReadTool | ListTool | Unbound

  function ToolNamed(name: string): (t: Tool)
    ensures t != Unbound <==> name in BoundTools
  {
    if name == "write_file" then WriteTool
    else if name == "read_file" then ReadTool
    else if name == "list_files" then ListTool
    else Unbound
  }

  /** The directory `list_files` lists: its argument, or "." by default. */
  function ListTarget(call: ToolCall): (d: string)
    ensures "directory" !in call.args ==> d == "."
    ensures "directory" in call.args ==> d == call.args["directory"]
  {
    if "directory" in call.args then call.args["directory"] else "."
  }

  /** The file system after running one call: only a `write_file` call with
      both its arguments can change it. */
  function Effect(store: Store, root: Path, call: ToolCall): Store
    requires Canonical(root)
  {
    if ToolNamed(call.name) == WriteTool && "filename" in call.args && "content" in call.args
    then Write(store, root, call.args["filename"], call.args["content"]).store
    else store
  }

  /** The file system after running `calls` one after another. */
  function AfterCalls(store: Store, root: Path, calls: seq<ToolCall>): (r: Store)
    requires Canonical(root)
    ensures forall q :: q in store ==> q in r
    decreases |calls|
  {
    if calls == [] then store
    else Effect(AfterCalls(store, root, calls[..|calls| - 1]), root, calls[|calls| - 1])
  }

  /** What the tool node may answer to one call made on `store`. A call for
      a tool that is not bound, or whose arguments do not fit the tool, is
      answered by the tool node's own error text `reject(call)`. */
  ghost predicate Answered(store: Store, root: Path, call: ToolCall, reject: ToolCall -> string, content: string)
    requires Canonical(root)
  {
    if ToolNamed(call.name) == WriteTool && "filename" in call.args && "content" in call.args then
      content == Write(store, root, call.args["filename"], call.args["content"]).message
    else if ToolNamed(call.name) == ReadTool && "filename" in call.args then
      content == Read(store, root, call.args["filename"])
    else if ToolNamed(call.name) == ListTool then
      Listing(store, root, ListTarget(call), content)
    else content == reject(call)
  }

  /** `replies` answer `calls` one for one, in order, by id and tool name. */
  predicate Answers(calls: seq<ToolCall>, replies: seq<Message>) {
    && |replies| == |calls|
    && forall i :: 0 <= i < |calls| ==>
      replies[i].ToolMessage? && replies[i].toolCallId == calls[i].id && replies[i].toolName == calls[i].name
  }

  /** One call run by the tool node: the bound tool it names, with its
      arguments, or the tool node's error text. */
  method RunCall(ws: Workspace, call: ToolCall, reject: ToolCall -> string) returns (content: string)
    requires ws.Valid()
    modifies ws
    ensures ws.Valid()
    ensures ws.entries == Effect(old(ws.entries), ws.root, call)
    ensures Answered(old(ws.entries), ws.root, call, reject, content)
  {
    if ToolNamed(call.name) == WriteTool && "filename" in call.args && "content" in call.args {
      content := ws.WriteFile(call.args["filename"], call.args["content"]);
    } else if ToolNamed(call.name) == ReadTool && "filename" in call.args {
      content := Read(ws.entries, ws.root, call.args["filename"]);
    } else if ToolNamed(call.name) == ListTool {
      content := ListFiles(ws.entries, ws.root, ListTarget(call));
    } else {
      content := reject(call);
    }
  }

  /** The tool node: runs each requested call against the workspace, in
      order, and answers each with one tool message. */
  method ToolsNode(ws: Workspace, calls: seq<ToolCall>, reject: ToolCall -> string) returns (replies: seq<Message>)
    requires ws.Valid()
    modifies ws
    ensures ws.Valid()
    ensures ws.entries == AfterCalls(old(ws.entries), ws.root, calls)
    ensures Answers(calls, replies)
    ensures forall i :: 0 <= i < |calls| ==>
      Answered(AfterCalls(old(ws.entries), ws.root, calls[..i]), ws.root, calls[i], reject, replies[i].content)
  {
    ghost var initial := ws.entries;
    replies := [];
    var i := 0;
    while i < |calls|
      invariant 0 <= i <= |calls|
      invariant ws.Valid()
      invariant ws.entries == AfterCalls(initial, ws.root, calls[..i])
      invariant Answers(calls[..i], replies)
      invariant forall k :: 0 <= k < i ==>
        Answered(AfterCalls(initial, ws.root, calls[..k]), ws.root, calls[k], reject, replies[k].content)
    {
      var call := calls[i];
      AfterCallsStep(initial, ws.root, calls, i);
      var content := RunCall(ws, call, reject);
      var next := replies + [ToolMessage(content, call.id, call.name)];
      AnsweredExtend(initial, ws.root, calls, reject, replies, i, content);
      replies := next;
      i := i + 1;
    }
    assert calls[..|calls|] == calls;
  }

  /** The answers so far, extended by the answer to call `i`. */
  lemma AnsweredExtend(initial: Store, root: Path, calls: seq<ToolCall>, reject: ToolCall -> string,
                       replies: seq<Message>, i: nat, content: string)
    requires Canonical(root) && i < |calls| && |replies| == i
    requires Answers(calls[..i], replies)
    requires forall k :: 0 <= k < i ==>
      Answered(AfterCalls(initial, root, calls[..k]), root, calls[k], reject, replies[k].content)
    requires Answered(AfterCalls(initial, root, calls[..i]), root, calls[i], reject, content)
    ensures var next := replies + [ToolMessage(content, calls[i].id, calls[i].name)];
      && Answers(calls[..i + 1], next)
      && forall k :: 0 <= k < i + 1 ==>
        Answered(AfterCalls(initial, root, calls[..k]), root, calls[k], reject, next[k].content)
  {
    var next := replies + [ToolMessage(content, calls[i].id, calls[i].name)];
    forall k | 0 <= k < i + 1
      ensures Answered(AfterCalls(initial, root, calls[..k]), root, calls[k], reject, next[k].content)
    {
      if k < i {
        assert next[k] == replies[k];
      } else {
        assert next[k].content == content;
      }
    }
    AnswersExtend(calls, replies, i, content);
  }

  /** One more tool message answers one more call. */
  lemma AnswersExtend(calls: seq<ToolCall>, replies: seq<Message>, i: nat, content: string)
    requires i < |calls| && Answers(calls[..i], replies)
    ensures Answers(calls[..i + 1], replies + [ToolMessage(content, calls[i].id, calls[i].name)])
  {
    var next := replies + [ToolMessage(content, calls[i].id, calls[i].name)];
    forall k | 0 <= k < i + 1
      ensures next[k].ToolMessage? && next[k].toolCallId == calls[..i + 1][k].id && next[k].toolName == calls[..i + 1][k].name
    {
      assert calls[..i + 1][k] == calls[k];
      if k < i {
        assert next[k] == replies[k] && calls[..i][k] == calls[k];
      }
    }
  }

  /** Running one more call. */
  lemma AfterCallsStep(store: Store, root: Path, calls: seq<ToolCall>, i: nat)
    requires Canonical(root) && i < |calls|
    ensures AfterCalls(store, root, calls[..i + 1]) == Effect(AfterCalls(store, root, calls[..i]), root, calls[i])
  {
    assert calls[..i + 1][..i] == calls[..i];
  }

  /** Running calls keeps the file system well formed. */
  lemma {:induction false} AfterCallsWellFormed(store: Store, root: Path, calls: seq<ToolCall>)
    requires WellFormed(store) && Canonical(root)
    ensures WellFormed(AfterCalls(store, root, calls))
    decreases |calls|
  {
    if calls != [] {
      var before := AfterCalls(store, root, calls[..|calls| - 1]);
      AfterCallsWellFormed(store, root, calls[..|calls| - 1]);
      var call := calls[|calls| - 1];
      if ToolNamed(call.name) == WriteTool && "filename" in call.args && "content" in call.args {
        var w := Write(before, root, call.args["filename"], call.args["content"]);
        var resolved := SafePath(root, call.args["filename"]);
        if resolved.Ok? && WriteAt(before, resolved.value, call.args["content"]).Wrote? {
          WriteAtEffect(before, resolved.value, call.args["content"]);
        }
      }
    }
  }

  /** Calls that write nothing leave the file system as it was. */
  lemma {:induction false} ReadOnlyCalls(store: Store, root: Path, calls: seq<ToolCall>)
    requires Canonical(root)
    requires forall i :: 0 <= i < |calls| ==> ToolNamed(calls[i].name) != WriteTool
    ensures AfterCalls(store, root, calls) == store
    decreases |calls|
  {
    if calls != [] {
      ReadOnlyCalls(store, root, calls[..|calls| - 1]);
    }
  }

  /** Finished exchanges: each model message that asked for tools, followed
      by the tool messages answering its calls. */
  predicate Exchanges(msgs: seq<Message>)
    decreases |msgs|
  {
    msgs == [] ||
      (msgs[0].AIMessage? && msgs[0].toolCalls != []
      && |msgs| > |msgs[0].toolCalls|
      && Answers(msgs[0].toolCalls, msgs[1..|msgs[0].toolCalls| + 1])
      && Exchanges(msgs[|msgs[0].toolCalls| + 1..]))
  }

  /** One more exchange extends a run of finished exchanges. */
  lemma {:induction false} ExchangesAppend(done: seq<Message>, ai: Message, replies: seq<Message>)
    requires Exchanges(done)
    requires ai.AIMessage? && ai.toolCalls != [] && Answers(ai.toolCalls, replies)
    ensures Exchanges(done + [ai] + replies)
    decreases |done|
  {
    var m := done + [ai] + replies;
    if done == [] {
      assert m == [ai] + replies;
      assert m[1..|ai.toolCalls| + 1] == replies;
      assert m[|ai.toolCalls| + 1..] == [];
    } else {
      var n := |done[0].toolCalls|;
      var rest := done[n + 1..];
      ExchangesAppend(rest, ai, replies);
      assert m[0] == done[0];
      assert m[1..n + 1] == done[1..n + 1];
      assert m[n + 1..] == rest + [ai] + replies;
    }
  }

  datatype Step = Reason | Tools

  /** A trace starts at `reason`, and no node follows itself: `reason` and
      `tools` strictly alternate. */
  predicate Alternates(trace: seq<Step>) {
    && (trace != [] ==> trace[0] == Reason)
    && forall i :: 0 < i < |trace| ==> trace[i] != trace[i - 1]
  }

  /** What a run has done after some steps: the conversation and the file system. */
  datatype Snapshot = Snapshot(messages: seq<Message>, store: Store)

  /** `replies` are what the tool node answers to `calls` run in order on `store`. */
  ghost predicate ToolsAnswered(root: Path, reject: ToolCall -> string, calls: seq<ToolCall>, store: Store, replies: seq<Message>)
    requires Canonical(root)
  {
    && Answers(calls, replies)
    && forall i :: 0 <= i < |calls| ==>
      Answered(AfterCalls(store, root, calls[..i]), root, calls[i], reject, replies[i].content)
  }

  /** One step of the graph from `a` to `b`. A `reason` step appends the
      model's one message for the conversation so far. A `tools` step is
      taken only when the last message asks for tools; it appends one answer
      per call, each given on the store the earlier calls left, and the
      store becomes the one after all the calls. */
  ghost predicate StepTaken(llm: seq<Message> -> Reply, today: string, reject: ToolCall -> string, root: Path,
                            step: Step, a: Snapshot, b: Snapshot)
    requires Canonical(root)
  {
    match step
    case Reason =>
      b.messages == a.messages + ReasonNode(llm, today, a.messages) && b.store == a.store
    case Tools => ToolsStep(root, reject, a, b)
  }

  /** A `tools` step from `a` to `b`. */
  ghost predicate ToolsStep(root: Path, reject: ToolCall -> string, a: Snapshot, b: Snapshot)
    requires Canonical(root)
  {
    && |a.messages| > 0
    && a.messages[|a.messages| - 1].AIMessage?
    && a.messages[|a.messages| - 1].toolCalls != []
    && var calls := a.messages[|a.messages| - 1].toolCalls;
    && |b.messages| == |a.messages| + |calls|
    && b.messages[..|a.messages|] == a.messages
    && ToolsAnswered(root, reject, calls, a.store, b.messages[|a.messages|..])
    && b.store == AfterCalls(a.store, root, calls)
  }

  /** `states` are the snapshots before and after each step of `trace`. */
  ghost predicate Follows(llm: seq<Message> -> Reply, today: string, reject: ToolCall -> string, root: Path,
                          trace: seq<Step>, states: seq<Snapshot>)
    requires Canonical(root)
    decreases |trace|
  {
    && |states| == |trace| + 1
    && (trace != [] ==>
      && Follows(llm, today, reject, root, trace[..|trace| - 1], states[..|trace|])
      && StepTaken(llm, today, reject, root, trace[|trace| - 1], states[|trace| - 1], states[|trace|]))
  }

  /** A step taken from the last snapshot extends the run. */
  lemma FollowsExtend(llm: seq<Message> -> Reply, today: string, reject: ToolCall -> string, root: Path,
                      trace: seq<Step>, states: seq<Snapshot>, step: Step, next: Snapshot)
    requires Canonical(root)
    requires Follows(llm, today, reject, root, trace, states)
    requires StepTaken(llm, today, reject, root, step, states[|states| - 1], next)
    ensures Follows(llm, today, reject, root, trace + [step], states + [next])
  {
    var t, ss := trace + [step], states + [next];
    assert t[..|trace|] == trace && ss[..|t|] == states;
    assert t[|t| - 1] == step && ss[|t| - 1] == states[|states| - 1] && ss[|t|] == next;
  }

  /** The `tools` node run on the model's last message. */
  method AnswerLast(ws: Workspace, messages: seq<Message>, reject: ToolCall -> string) returns (replies: seq<Message>)
    requires ws.Valid()
    requires |messages| > 0 && messages[|messages| - 1].AIMessage? && messages[|messages| - 1].toolCalls != []
    modifies ws
    ensures ws.Valid()
    ensures Answers(messages[|messages| - 1].toolCalls, replies)
    ensures ToolsStep(ws.root, reject, Snapshot(messages, old(ws.entries)), Snapshot(messages + replies, ws.entries))
  {
    replies := ToolsNode(ws, messages[|messages| - 1].toolCalls, reject);
    assert (messages + replies)[..|messages|] == messages && (messages + replies)[|messages|..] == replies;
  }

  /** Where a run stands after the steps of `trace`, begun from `input` on
      store `start`: the snapshots follow the graph, and the run's
      bookkeeping holds. */
  ghost predicate Progress(llm: seq<Message> -> Reply, today: string, reject: ToolCall -> string, root: Path,
                           input: seq<Message>, start: Store, store: Store, messages: seq<Message>,
                           done: seq<Message>, pending: seq<Message>, trace: seq<Step>, states: seq<Snapshot>,
                           ended: bool)
    requires Canonical(root)
  {
    && Follows(llm, today, reject, root, trace, states)
    && Bookkeeping(input, start, store, messages, done, pending, trace, states, ended)
  }

  /** The steps alternate, the last snapshot is the current conversation and
      store, the conversation is the input, the finished exchanges `done`,
      and the model's message `pending` that the router has not yet sent to
      the tool node (or that ended the run). */
  ghost predicate Bookkeeping(input: seq<Message>, start: Store, store: Store, messages: seq<Message>,
                              done: seq<Message>, pending: seq<Message>, trace: seq<Step>, states: seq<Snapshot>,
                              ended: bool)
  {
    && Alternates(trace)
    && |states| == |trace| + 1
    && states[0] == Snapshot(input, start)
    && states[|states| - 1] == Snapshot(messages, store)
    && messages == input + done + pending
    && Exchanges(done)
    && (ended ==>
      && |trace| > 0 && trace[|trace| - 1] == Reason
      && |pending| == 1 && pending[0].AIMessage? && pending[0].toolCalls == [])
    && (!ended && pending == [] ==> trace == [] || trace[|trace| - 1] == Tools)
    && (!ended && pending != [] ==>
      && trace != [] && trace[|trace| - 1] == Reason
      && |pending| == 1 && pending[0].AIMessage? && pending[0].toolCalls != [])
  }

  /** A `reason` step, and the router's decision after it. */
  method ReasonTurn(llm: seq<Message> -> Reply, today: string, reject: ToolCall -> string, root: Path,
                    input: seq<Message>, ghost start: Store, ghost store: Store, messages: seq<Message>,
                    done: seq<Message>, pending: seq<Message>, trace: seq<Step>, ghost states: seq<Snapshot>)
    returns (messages': seq<Message>, pending': seq<Message>, trace': seq<Step>, ghost states': seq<Snapshot>, ended: bool)
    requires Canonical(root)
    requires Progress(llm, today, reject, root, input, start, store, messages, done, pending, trace, states, false)
    requires pending == []
    ensures Progress(llm, today, reject, root, input, start, store, messages', done, pending', trace', states', ended)
    ensures trace' == trace + [Reason]
  {
    var update := ReasonNode(llm, today, messages);
    assert messages + update == input + done + update;
    FollowsExtend(llm, today, reject, root, trace, states, Reason, Snapshot(messages + update, store));
    messages' := messages + update;
    pending' := update;
    trace' := trace + [Reason];
    states' := states + [Snapshot(messages', store)];
    ended := Router(messages') == ToEnd;
  }

  /** A `tools` step: the tool node answers the pending message's calls. */
  method ToolsTurn(ws: Workspace, llm: seq<Message> -> Reply, today: string, reject: ToolCall -> string,
                   input: seq<Message>, ghost start: Store, messages: seq<Message>,
                   done: seq<Message>, pending: seq<Message>, trace: seq<Step>, ghost states: seq<Snapshot>)
    returns (messages': seq<Message>, done': seq<Message>, trace': seq<Step>, ghost states': seq<Snapshot>)
    requires ws.Valid()
    requires Progress(llm, today, reject, ws.root, input, start, ws.entries, messages, done, pending, trace, states, false)
    requires pending != []
    modifies ws
    ensures ws.Valid()
    ensures Progress(llm, today, reject, ws.root, input, start, ws.entries, messages', done', [], trace', states', false)
    ensures trace' == trace + [Tools]
  {
    var ai := pending[0];
    assert pending == [ai];
    assert messages[|messages| - 1] == ai by {
      assert messages == (input + done) + [ai];
    }
    ghost var before := ws.entries;
    var replies := AnswerLast(ws, messages, reject);
    FollowsExtend(llm, today, reject, ws.root, trace, states, Tools, Snapshot(messages + replies, ws.entries));
    ToolsProgress(input, start, before, ws.entries, messages, done, ai, replies, trace, states);
    messages' := messages + replies;
    done' := done + [ai] + replies;
    trace' := trace + [Tools];
    states' := states + [Snapshot(messages', ws.entries)];
  }

  /** The bookkeeping of a `tools` step. */
  lemma ToolsProgress(input: seq<Message>, start: Store, before: Store, after: Store, messages: seq<Message>,
                      done: seq<Message>, ai: Message, replies: seq<Message>, trace: seq<Step>, states: seq<Snapshot>)
    requires Bookkeeping(input, start, before, messages, done, [ai], trace, states, false)
    requires Answers(ai.toolCalls, replies)
    ensures Bookkeeping(input, start, after, messages + replies, done + [ai] + replies, [],
                        trace + [Tools], states + [Snapshot(messages + replies, after)], false)
  {
    var m2, d2 := messages + replies, done + [ai] + replies;
    var t2, s2 := trace + [Tools], states + [Snapshot(m2, after)];
    assert Alternates(t2) by {
      assert t2[|t2| - 1] == Tools && t2[..|trace|] == trace;
    }
    assert s2[0] == Snapshot(input, start) && s2[|s2| - 1] == Snapshot(m2, after);
    assert m2 == input + d2 + [] by {
      assert messages == input + done + [ai];
    }
    assert Exchanges(d2) by {
      ExchangesAppend(done, ai, replies);
    }
  }

  /** The compiled graph, START -> reason -> (router) -> tools -> reason ...
      -> END. Nothing in the graph bounds the number of steps, so the run is
      given `fuel` steps; `ended` says whether it reached END within them.
      `states` records the conversation and the file system before and
      after every step. */
  method Run(ws: Workspace, llm: seq<Message> -> Reply, today: string, reject: ToolCall -> string,
             input: seq<Message>, fuel: nat)
    returns (messages: seq<Message>, trace: seq<Step>, ended: bool, ghost states: seq<Snapshot>)
    requires ws.Valid()
    modifies ws
    ensures ws.Valid()
    ensures Alternates(trace) && |trace| <= fuel
    ensures !ended ==> |trace| == fuel
    ensures ended ==> |trace| > 0 && trace[|trace| - 1] == Reason
    ensures |input| <= |messages| && messages[..|input|] == input
    ensures ended ==> |messages| > |input|
    ensures ended ==>
      && messages[|messages| - 1].AIMessage?
      && messages[|messages| - 1].toolCalls == []
      && Exchanges(messages[|input|..|messages| - 1])
    ensures ended <==>
      && trace != [] && trace[|trace| - 1] == Reason
      && messages != [] && messages[|messages| - 1].AIMessage? && messages[|messages| - 1].toolCalls == []
    ensures Follows(llm, today, reject, ws.root, trace, states)
    ensures states[0] == Snapshot(input, old(ws.entries))
    ensures states[|states| - 1] == Snapshot(messages, ws.entries)
  {
    states := [Snapshot(input, ws.entries)];
    messages := input;
    trace := [];
    ended := false;
    var done: seq<Message> := [];
    var pending: seq<Message> := [];
    assert input + done + pending == input;
    while |trace| < fuel && !ended
      invariant ws.Valid() && |trace| <= fuel
      invariant Progress(llm, today, reject, ws.root, input, old(ws.entries), ws.entries,
                         messages, done, pending, trace, states, ended)
      decreases fuel - |trace|, !ended
    {
      if pending == [] {
        messages, pending, trace, states, ended :=
          ReasonTurn(llm, today, reject, ws.root, input, old(ws.entries), ws.entries, messages, done, pending, trace, states);
      } else {
        messages, done, trace, states :=
          ToolsTurn(ws, llm, today, reject, input, old(ws.entries), messages, done, pending, trace, states);
        pending := [];
      }
    }
    assert messages[..|input|] == input;
    if pending != [] {
      assert messages[|messages| - 1] == pending[0];
    }
    if ended {
      assert messages[|input|..|messages| - 1] == done;
    }
  }
}
