/** The `/chat` controller of backend/app.py: it builds the conversation for
    the language model, runs the tool calls the model asks for, falls back
    to the keyword detector when anything in that path raises, and returns
    the reply, the tool results and the extended history. The model service
    is a parameter: it maps a request to a completion or a failure. */
module Chat {

  import opened Wrappers
  import opened Executors
  import opened Registry
  import opened Detector

  /** An entry of the client's history: a role (empty when absent) and a
      content (None when absent or null). */
  datatype Turn = Turn(role: string, content: Option<string>)

  /** What json.loads makes of a tool call's argument text: a parse error, a
      JSON value that is not an object, or an object. */
  datatype CallArgs = Unparsable | NonObject | Object(args: Args)

  datatype ToolCall = ToolCall(id: string, name: string, arguments: CallArgs)

  /** The messages of a request: role and text, the assistant's message
      carrying tool calls, and a tool's reply to one of those calls. */
  datatype Message =
    | Text(role: string, content: string)
    | ToolCalls(content: string, calls: seq<ToolCall>)
    | ToolReply(callId: string, name: string, result: ToolResult)

  /** A request to the model service: the messages, whether the tool catalog
      is offered, and the token limit. */
  datatype Request = Request(messages: seq<Message>, offerTools: bool, maxTokens: nat)

  /** The service raised, or answered with a content (None for null) and
      tool calls. */
  datatype Completion = Failed | Completed(content: Option<string>, calls: seq<ToolCall>)

  type Backend = Request -> Completion

  /** The JSON response, or the uncaught exception that makes Flask answer
      with an internal server error. */
  datatype TurnResult =
    | Responded(response: Option<string>, toolCalls: seq<ToolResult>, history: seq<Turn>)
    | InternalError

  const SystemPrompt: string :=
    "You are a friendly AI assistant with 25+ tools! Be conversational and warm.\n\n"
    + "Keep responses brief and natural (2-3 sentences max). Use a warm, engaging tone."
  const SummaryPrompt: string := "You are a friendly AI. Respond naturally based on the tool result."
  const DefaultReply: string := "Hey! How can I help you? \U{1F60A}"
  const OfflineReply: string :=
    "I'm here to help! I have 25+ tools including Wikipedia, calculator, weather, and more. "
    + "What would you like to know? \U{1F60A}"
  const FoundPrefix: string := "Here's what I found: "

  // ---------------------------------------------------------------------------
  // The conversation sent to the model
  // ---------------------------------------------------------------------------

  /** `conversation_history[-6:]` */
  function Recent(history: seq<Turn>): seq<Turn>
  {
    if |history| <= 6 then history else history[|history| - 6..]
  }

  /** A user or assistant turn with a non-empty content is passed on. */
  predicate Passed(t: Turn)
  {
    (t.role == "user" || t.role == "assistant") && t.content.Some? && t.content.value != ""
  }

  /** The passed turns of ts, in order, as messages. */
  function Kept(ts: seq<Turn>): (ms: seq<Message>)
    ensures |ms| <= |ts|
  {
    if ts == [] then []
    else
      var t := ts[|ts| - 1];
      Kept(ts[..|ts| - 1]) + (if Passed(t) then [Text(t.role, t.content.value)] else [])
  }

  function Context(history: seq<Turn>): seq<Message>
  {
    Kept(Recent(history))
  }

  /** The system prompt, the context and the new user message. */
  function Opening(message: string, history: seq<Turn>): seq<Message>
  {
    [Text("system", SystemPrompt)] + Context(history) + [Text("user", message)]
  }

  /** Every message Kept produces is a user or assistant message with a
      non-empty text, taken from a turn of ts. */
  lemma {:induction false} KeptFromTurns(ts: seq<Turn>)
    ensures forall k :: 0 <= k < |Kept(ts)| ==>
      Kept(ts)[k].Text? && (Kept(ts)[k].role == "user" || Kept(ts)[k].role == "assistant") &&
      Kept(ts)[k].content != "" &&
      exists j :: 0 <= j < |ts| && ts[j] == Turn(Kept(ts)[k].role, Some(Kept(ts)[k].content))
  {
    if ts != [] {
      var init := ts[..|ts| - 1];
      KeptFromTurns(init);
      forall k | 0 <= k < |Kept(init)|
        ensures exists j :: 0 <= j < |ts| && ts[j] == Turn(Kept(init)[k].role, Some(Kept(init)[k].content))
      {
        var j :| 0 <= j < |init| && init[j] == Turn(Kept(init)[k].role, Some(Kept(init)[k].content));
        assert ts[j] == init[j];
      }
    }
  }

  /** When every turn is passed on, Kept turns each into its message. */
  lemma {:induction false} KeptAll(ts: seq<Turn>)
    requires forall j :: 0 <= j < |ts| ==> Passed(ts[j])
    ensures |Kept(ts)| == |ts|
    ensures forall k :: 0 <= k < |ts| ==>
      Kept(ts)[k].Text? && Kept(ts)[k].role == ts[k].role && Some(Kept(ts)[k].content) == ts[k].content
  {
    if ts != [] {
      var init := ts[..|ts| - 1];
      KeptAll(init);
    }
  }

  /** Kept works turn by turn: the messages of two stretches of turns are
      those of the first followed by those of the second. */
  lemma {:induction false} KeptAppend(a: seq<Turn>, b: seq<Turn>)
    ensures Kept(a + b) == Kept(a) + Kept(b)
    decreases |b|
  {
    if b == [] {
      assert a + b == a;
    } else {
      var init := b[..|b| - 1];
      var t := b[|b| - 1];
      KeptAppend(a, init);
      assert (a + b)[..|a + b| - 1] == a + init;
      assert (a + b)[|a + b| - 1] == t;
      var h := if Passed(t) then [Text(t.role, t.content.value)] else [];
      assert Kept(a + b) == Kept(a) + Kept(init) + h;
    }
  }

  /** One turn gives its message when it is passed on and nothing otherwise. */
  lemma KeptSingle(t: Turn)
    ensures Kept([t]) == if Passed(t) then [Text(t.role, t.content.value)] else []
  {
    assert [t][..0] == [];
  }

  /** The context holds at most six messages, all user or assistant
      messages with a non-empty text taken from the history. */
  lemma ContextShape(history: seq<Turn>)
    ensures |Context(history)| <= 6 && |Context(history)| <= |history|
    ensures forall k :: 0 <= k < |Context(history)| ==>
      Context(history)[k].Text? && Context(history)[k].content != "" &&
      (Context(history)[k].role == "user" || Context(history)[k].role == "assistant")
    ensures forall k :: 0 <= k < |Context(history)| ==>
      Turn(Context(history)[k].role, Some(Context(history)[k].content)) in history
  {
    var r := Recent(history);
    KeptFromTurns(r);
    forall k | 0 <= k < |Context(history)|
      ensures Turn(Context(history)[k].role, Some(Context(history)[k].content)) in history
    {
      var j :| 0 <= j < |r| && r[j] == Turn(Kept(r)[k].role, Some(Kept(r)[k].content));
      assert r[j] == history[|history| - |r| + j];
    }
  }

  /** Only the last six turns matter: older turns never reach the model. */
  lemma ContextIgnoresOlder(older: seq<Turn>, history: seq<Turn>)
    requires |history| >= 6
    ensures Context(older + history) == Context(history)
  {
    var all := older + history;
    assert all[|all| - 6..] == history[|history| - 6..];
  }

  /** A history of well-formed turns contributes exactly its last six (or
      all of it when it is shorter), each as the message it holds. */
  lemma ContextOfWellFormedHistory(history: seq<Turn>)
    requires forall j :: 0 <= j < |history| ==> Passed(history[j])
    ensures var n := if |history| <= 6 then |history| else 6;
      |Context(history)| == n &&
      forall k :: 0 <= k < n ==>
        var t := history[|history| - n + k];
        t.content.Some? && Context(history)[k] == Text(t.role, t.content.value)
  {
    var r := Recent(history);
    var n := |r|;
    forall j | 0 <= j < n
      ensures Passed(r[j])
    {
      assert r[j] == history[|history| - n + j];
    }
    KeptAll(r);
    forall k | 0 <= k < n
      ensures var t := history[|history| - n + k];
        t.content.Some? && Context(history)[k] == Text(t.role, t.content.value)
    {
      var m := Kept(r)[k];
      assert r[k] == history[|history| - n + k];
      assert m == Text(m.role, m.content);
    }
  }

  // ---------------------------------------------------------------------------
  // Running the model's tool calls
  // ---------------------------------------------------------------------------

  /** What one tool call does: json.loads raises on unparsable arguments
      before the name is looked at; an unknown name is skipped; `**` raises
      on arguments that are not an object; the tool may raise or return. */
  datatype Step = Raise | Skip | Ran(result: ToolResult)

  function CallStep(c: ToolCall, external: External): Step
  {
    if c.arguments.Unparsable? then Raise
    else if c.name !in AvailableFunctions then Skip
    else match c.arguments
      case NonObject => Raise
      case Object(args) =>
        match Invoke(c.name, args, external)
        case Raised => Raise
        case Returned(r) => Ran(r)
  }

  /** The messages and results after the tool-call loop, and whether it
      stopped on an exception. */
  datatype Dispatched = Dispatched(messages: seq<Message>, results: seq<ToolResult>, raised: bool)

  /** What each call of calls does. */
  function Steps(calls: seq<ToolCall>, external: External): (steps: seq<Step>)
    ensures |steps| == |calls|
  {
    seq(|calls|, k requires 0 <= k < |calls| => CallStep(calls[k], external))
  }

  /** The loop over the calls in their order, each doing its step, from the
      given messages and results; an exception ends it with what was
      recorded so far. */
  function Record(calls: seq<ToolCall>, steps: seq<Step>, messages: seq<Message>, results: seq<ToolResult>): Dispatched
    requires |steps| == |calls|
    decreases |calls|
  {
    if calls == [] then Dispatched(messages, results, false)
    else
      var c := calls[0];
      match steps[0]
      case Raise => Dispatched(messages, results, true)
      case Skip => Record(calls[1..], steps[1..], messages, results)
      case Ran(r) => Record(calls[1..], steps[1..], messages + [ToolReply(c.id, c.name, r)], results + [r])
  }

  /** The tool-call loop of the model path. */
  function Dispatch(calls: seq<ToolCall>, messages: seq<Message>, external: External): Dispatched
  {
    Record(calls, Steps(calls, external), messages, [])
  }

  /** The loop only appends: one tool reply per recorded result, carrying
      that result, and at most one result per call. */
  lemma {:induction false} RecordAppends(calls: seq<ToolCall>, steps: seq<Step>,
                                        messages: seq<Message>, results: seq<ToolResult>)
    requires |steps| == |calls|
    ensures var d := Record(calls, steps, messages, results);
      messages <= d.messages && results <= d.results &&
      |d.messages| - |messages| == |d.results| - |results| <= |calls|
    ensures var d := Record(calls, steps, messages, results);
      forall j :: |messages| <= j < |d.messages| ==>
        d.messages[j].ToolReply? && d.messages[j].result == d.results[|results| + j - |messages|]
    decreases |calls|
  {
    if calls != [] {
      var c := calls[0];
      match steps[0] {
        case Raise =>
        case Skip =>
          RecordAppends(calls[1..], steps[1..], messages, results);
        case Ran(r) =>
          var m1, r1 := messages + [ToolReply(c.id, c.name, r)], results + [r];
          RecordAppends(calls[1..], steps[1..], m1, r1);
          var d := Record(calls[1..], steps[1..], m1, r1);
          assert d.messages[|messages|] == m1[|messages|];
          assert d.results[|results|] == r1[|results|];
      }
    }
  }

  /** A step that raises ends the loop with an exception, whatever the
      steps before it do. */
  lemma {:induction false} RecordStopsAtRaise(calls: seq<ToolCall>, steps: seq<Step>,
                                             messages: seq<Message>, results: seq<ToolResult>, k: nat)
    requires |steps| == |calls| && k < |calls| && steps[k].Raise?
    ensures Record(calls, steps, messages, results).raised
    decreases |calls|
  {
    if k > 0 {
      match steps[0] {
        case Raise =>
        case Skip =>
          RecordStopsAtRaise(calls[1..], steps[1..], messages, results, k - 1);
        case Ran(r) =>
          RecordStopsAtRaise(calls[1..], steps[1..], messages + [ToolReply(calls[0].id, calls[0].name, r)],
                             results + [r], k - 1);
      }
    }
  }

  /** Without an exception, every step that ran is recorded. */
  lemma {:induction false} RecordSkips(calls: seq<ToolCall>, steps: seq<Step>,
                                      messages: seq<Message>, results: seq<ToolResult>)
    requires |steps| == |calls| && forall k :: 0 <= k < |steps| ==> steps[k].Skip?
    ensures Record(calls, steps, messages, results) == Dispatched(messages, results, false)
    decreases |calls|
  {
    if calls != [] {
      RecordSkips(calls[1..], steps[1..], messages, results);
    }
  }

  /** Running two stretches of calls is running the first and, unless it
      raised, the second from where the first left off. */
  lemma {:induction false} RecordConcat(a: seq<ToolCall>, sa: seq<Step>, b: seq<ToolCall>, sb: seq<Step>,
                                       messages: seq<Message>, results: seq<ToolResult>)
    requires |sa| == |a| && |sb| == |b|
    ensures Record(a + b, sa + sb, messages, results) ==
      var d := Record(a, sa, messages, results);
      if d.raised then d else Record(b, sb, d.messages, d.results)
    decreases |a|
  {
    if a == [] {
      assert a + b == b && sa + sb == sb;
    } else {
      var c := a[0];
      assert (a + b)[0] == c && (a + b)[1..] == a[1..] + b;
      assert (sa + sb)[0] == sa[0] && (sa + sb)[1..] == sa[1..] + sb;
      match sa[0] {
        case Raise =>
        case Skip =>
          RecordConcat(a[1..], sa[1..], b, sb, messages, results);
        case Ran(r) =>
          RecordConcat(a[1..], sa[1..], b, sb, messages + [ToolReply(c.id, c.name, r)], results + [r]);
      }
    }
  }

  /** The steps of two stretches of calls are those of each. */
  lemma StepsAppend(a: seq<ToolCall>, b: seq<ToolCall>, external: External)
    ensures Steps(a + b, external) == Steps(a, external) + Steps(b, external)
  {
    assert forall k :: 0 <= k < |a + b| ==> (a + b)[k] == if k < |a| then a[k] else b[k - |a|];
  }

  /** One more call: after the calls before it, unless they raised, it
      raises, is skipped, or appends exactly the tool reply with its id,
      name and result, and the result. */
  lemma DispatchSnoc(calls: seq<ToolCall>, c: ToolCall, messages: seq<Message>, external: External)
    ensures var d := Dispatch(calls, messages, external);
      Dispatch(calls + [c], messages, external) ==
        if d.raised then d
        else match CallStep(c, external)
          case Raise => Dispatched(d.messages, d.results, true)
          case Skip => d
          case Ran(r) => Dispatched(d.messages + [ToolReply(c.id, c.name, r)], d.results + [r], false)
  {
    StepsAppend(calls, [c], external);
    RecordConcat(calls, Steps(calls, external), [c], Steps([c], external), messages, []);
  }

  /** A call to an unknown tool with parsable arguments can be dropped from
      anywhere among the calls: the others run exactly as without it. */
  lemma UnknownCallDropped(a: seq<ToolCall>, c: ToolCall, b: seq<ToolCall>, messages: seq<Message>,
                           external: External)
    requires !c.arguments.Unparsable? && c.name !in AvailableFunctions
    ensures Dispatch(a + [c] + b, messages, external) == Dispatch(a + b, messages, external)
  {
    StepsAppend(a, [c] + b, external);
    StepsAppend([c], b, external);
    StepsAppend(a, b, external);
    assert a + [c] + b == a + ([c] + b);
    RecordConcat(a, Steps(a, external), [c] + b, Steps([c] + b, external), messages, []);
    RecordConcat(a, Steps(a, external), b, Steps(b, external), messages, []);
    var d := Record(a, Steps(a, external), messages, []);
    assert ([c] + b)[1..] == b;
  }

  /** The model path's loop appends one tool reply per result, in the
      order of the calls. */
  lemma DispatchAppends(calls: seq<ToolCall>, messages: seq<Message>, external: External)
    ensures var d := Dispatch(calls, messages, external);
      messages <= d.messages && |d.messages| - |messages| == |d.results| <= |calls| &&
      forall j :: |messages| <= j < |d.messages| ==>
        d.messages[j].ToolReply? && d.messages[j].result == d.results[j - |messages|]
  {
    RecordAppends(calls, Steps(calls, external), messages, []);
  }

  /** Arguments that do not parse raise even when the name is unknown: one
      such call anywhere sends the controller to its fallback. */
  lemma UnparsableCallRaises(calls: seq<ToolCall>, messages: seq<Message>, external: External, k: nat)
    requires k < |calls| && calls[k].arguments.Unparsable?
    ensures Dispatch(calls, messages, external).raised
  {
    RecordStopsAtRaise(calls, Steps(calls, external), messages, [], k);
  }

  /** Calls to unknown tools with parsable arguments are skipped: nothing is
      recorded and nothing raises. */
  lemma UnknownCallsSkipped(calls: seq<ToolCall>, messages: seq<Message>, external: External)
    requires forall k :: 0 <= k < |calls| ==>
      !calls[k].arguments.Unparsable? && calls[k].name !in AvailableFunctions
    ensures Dispatch(calls, messages, external) == Dispatched(messages, [], false)
  {
    RecordSkips(calls, Steps(calls, external), messages, []);
  }

  // ---------------------------------------------------------------------------
  // The controller
  // ---------------------------------------------------------------------------

  /** The reply and the new history `history + [user, assistant]`. */
  function Reply(message: string, history: seq<Turn>, response: Option<string>, results: seq<ToolResult>): TurnResult
  {
    Responded(response, results, history + [Turn("user", Some(message)), Turn("assistant", response)])
  }

  /** The prompt that asks the model to phrase a fallback tool's result. */
  function SummaryRequest(message: string, r: ToolResult): Request
  {
    Request([Text("system", SummaryPrompt),
             Text("user", "User asked: '" + message + "'\n\nTool: " + r.tool + "\nResult: " + r.output
                          + "\n\nRespond naturally in 2-3 sentences.")], false, 200)
  }

  /** The `except` branch: run the detected tool and have the model phrase
      the result (or use the plain template if that fails); with no tool
      detected, a plain chat request over the messages built so far (or the
      canned reply if that fails). A detected tool that raises is not
      caught. */
  function Fallback(message: string, history: seq<Turn>, messages: seq<Message>, results: seq<ToolResult>,
                    detected: Option<Intent>, backend: Backend, external: External): TurnResult
    requires Registered(detected)
  {
    match detected
    case None =>
      var reply := match backend(Request(messages, false, 200))
        case Failed => Some(OfflineReply)
        case Completed(content, _) => content;
      Reply(message, history, reply, results)
    case Some(intent) =>
      match Invoke(intent.tool, intent.args, external)
      case Raised => InternalError
      case Returned(r) =>
        var reply := match backend(SummaryRequest(message, r))
          case Failed => Some(FoundPrefix + r.output)
          case Completed(content, _) => content;
        Reply(message, history, reply, results + [r])
  }

  /** One turn of `/chat`. `detected` is the detector's answer for the
      message, Detect(message): the fallback consults it only after the
      model path has raised. An assistant content `or`-ed with a default is
      never None or empty. */
  function Converse(message: string, history: seq<Turn>, backend: Backend, external: External,
                    detected: Option<Intent>): TurnResult
    requires Registered(detected)
  {
    var opening := Opening(message, history);
    match backend(Request(opening, true, 300))
    case Failed => Fallback(message, history, opening, [], detected, backend, external)
    case Completed(content, calls) =>
      if calls == [] then
        Reply(message, history, Some(if content.Some? && content.value != "" then content.value else DefaultReply), [])
      else
        var asked := opening + [ToolCalls(if content.Some? then content.value else "", calls)];
        var d := Dispatch(calls, asked, external);
        if d.raised then Fallback(message, history, d.messages, d.results, detected, backend, external)
        else match backend(Request(d.messages, false, 300))
          case Failed => Fallback(message, history, d.messages, d.results, detected, backend, external)
          case Completed(final, _) => Reply(message, history, final, d.results)
  }

  /** The detector's answer always names a registered tool called as its
      catalog entry describes. */
  lemma DetectRegistered(message: string)
    ensures Registered(Detect(message))
  {
    DetectedIntentsConform(message, WikiQuery(message), CalcExpression(message));
  }

  /** Every response extends the history by the user's message and the
      reply, and the only uncaught exception is a detected fallback tool
      that raises. */
  lemma ConverseOutcome(message: string, history: seq<Turn>, backend: Backend, external: External,
                        detected: Option<Intent>)
    requires Registered(detected)
    ensures match Converse(message, history, backend, external, detected)
      case Responded(response, _, h) => h == history + [Turn("user", Some(message)), Turn("assistant", response)]
      case InternalError => detected.Some? && Invoke(detected.value.tool, detected.value.args, external).Raised?
  {
    var opening := Opening(message, history);
    match backend(Request(opening, true, 300))
    case Failed =>
      FallbackOutcome(message, history, opening, [], detected, backend, external);
    case Completed(content, calls) =>
      if calls != [] {
        var d := Dispatch(calls, opening + [ToolCalls(if content.Some? then content.value else "", calls)], external);
        FallbackOutcome(message, history, d.messages, d.results, detected, backend, external);
      }
  }

  /** The fallback either responds, extending the history by the user's
      message and the reply, or fails because the detected tool raised. */
  lemma FallbackOutcome(message: string, history: seq<Turn>, messages: seq<Message>, results: seq<ToolResult>,
                        detected: Option<Intent>, backend: Backend, external: External)
    requires Registered(detected)
    ensures match Fallback(message, history, messages, results, detected, backend, external)
      case Responded(response, _, h) => h == history + [Turn("user", Some(message)), Turn("assistant", response)]
      case InternalError => detected.Some? && Invoke(detected.value.tool, detected.value.args, external).Raised?
  {
  }

  /** A fallback tool the model executes itself never raises, so a detected
      integer or text tool never ends the turn with an internal error. */
  lemma ModelledFallbackResponds(message: string, history: seq<Turn>, backend: Backend, external: External)
    requires Detect(message).Some? && ModelledParam(Detect(message).value.tool).Some?
    ensures Registered(Detect(message))
    ensures Converse(message, history, backend, external, Detect(message)).Responded?
  {
    DetectRegistered(message);
    var intent := Detect(message).value;
    var i :| 0 <= i < |Catalog| && Catalog[i].name == intent.tool && Conforms(Catalog[i], intent.args);
    ConformingCallsReturn(i, intent.args, external, external);
    ConverseOutcome(message, history, backend, external, Detect(message));
  }

  /** An answer without tool calls is the model's content, or the default
      greeting when that content is null or empty; no tool runs. */
  lemma PlainAnswer(message: string, history: seq<Turn>, backend: Backend, external: External,
                    detected: Option<Intent>, content: Option<string>)
    requires Registered(detected)
    requires backend(Request(Opening(message, history), true, 300)) == Completed(content, [])
    ensures var r := Converse(message, history, backend, external, detected);
      r.Responded? && r.toolCalls == [] && r.response.Some? && r.response.value != "" &&
      (content.Some? && content.value != "" ==> r.response == content) &&
      (content.None? || content == Some("") ==> r.response == Some(DefaultReply))
  {
  }

  /** When the model service is down, the reply's tool results are exactly
      the detected tool's result, or none when nothing is detected. */
  lemma OfflineUsesDetector(message: string, history: seq<Turn>, external: External, detected: Option<Intent>)
    requires Registered(detected)
    ensures var r := Converse(message, history, (q: Request) => Failed, external, detected);
      match detected
      case None => r == Reply(message, history, Some(OfflineReply), [])
      case Some(intent) =>
        match Invoke(intent.tool, intent.args, external)
        case Raised => r == InternalError
        case Returned(t) => r == Reply(message, history, Some(FoundPrefix + t.output), [t])
  {
  }

  /** Results of tool calls that ran before an exception are kept: they
      open the reply's tool results, ahead of the fallback tool's. */
  lemma RaisedCallsKeepEarlierResults(message: string, history: seq<Turn>, backend: Backend, external: External,
                                      detected: Option<Intent>, content: Option<string>, calls: seq<ToolCall>)
    requires Registered(detected) && calls != []
    requires backend(Request(Opening(message, history), true, 300)) == Completed(content, calls)
    ensures var asked := Opening(message, history) + [ToolCalls(if content.Some? then content.value else "", calls)];
      var d := Dispatch(calls, asked, external);
      var r := Converse(message, history, backend, external, detected);
      r.Responded? ==> d.results <= r.toolCalls && |r.toolCalls| <= |d.results| + 1
  {
  }

  /** The loop over the recent history that builds the opening messages. */
  method BuildOpening(message: string, history: seq<Turn>) returns (messages: seq<Message>)
    ensures messages == Opening(message, history)
  {
    var recent := if |history| <= 6 then history else history[|history| - 6..];
    messages := [Text("system", SystemPrompt)];
    var i := 0;
    while i < |recent|
      invariant 0 <= i <= |recent|
      invariant messages == [Text("system", SystemPrompt)] + Kept(recent[..i])
    {
      var t := recent[i];
      assert recent[..i + 1] == recent[..i] + [t];
      if Passed(t) {
        messages := messages + [Text(t.role, t.content.value)];
      }
      i := i + 1;
    }
    assert recent[..i] == recent;
    messages := messages + [Text("user", message)];
  }

  /** The loop over the model's tool calls. */
  method RunCalls(calls: seq<ToolCall>, asked: seq<Message>, external: External) returns (d: Dispatched)
    ensures d == Dispatch(calls, asked, external)
  {
    ghost var steps := Steps(calls, external);
    var messages, results := asked, [];
    var j := 0;
    while j < |calls|
      invariant 0 <= j <= |calls|
      invariant Dispatch(calls, asked, external) == Record(calls[j..], steps[j..], messages, results)
    {
      var c := calls[j];
      assert calls[j..][0] == c && calls[j..][1..] == calls[j + 1..];
      assert steps[j..][0] == CallStep(c, external) && steps[j..][1..] == steps[j + 1..];
      match c.arguments {
        case Unparsable =>
          return Dispatched(messages, results, true);
        case NonObject =>
          if c.name in AvailableFunctions {
            return Dispatched(messages, results, true);
          }
        case Object(args) =>
          if c.name in AvailableFunctions {
            var o := Execute(c.name, args, external);
            match o {
              case Raised =>
                return Dispatched(messages, results, true);
              case Returned(t) =>
                messages := messages + [ToolReply(c.id, c.name, t)];
                results := results + [t];
            }
          }
      }
      j := j + 1;
    }
    assert calls[j..] == [];
    d := Dispatched(messages, results, false);
  }

  /** The `except` branch, run with the detector's answer. */
  method RunFallback(message: string, history: seq<Turn>, messages: seq<Message>, results: seq<ToolResult>,
                     detected: Option<Intent>, backend: Backend, external: External) returns (r: TurnResult)
    requires Registered(detected)
    ensures r == Fallback(message, history, messages, results, detected, backend, external)
  {
    if detected.None? {
      var chat := backend(Request(messages, false, 200));
      var reply := if chat.Failed? then Some(OfflineReply) else chat.content;
      return Reply(message, history, reply, results);
    }
    var intent := detected.value;
    var o := Execute(intent.tool, intent.args, external);
    if o.Raised? {
      return InternalError;
    }
    var t := o.result;
    var summary := backend(SummaryRequest(message, t));
    var reply := if summary.Failed? then Some(FoundPrefix + t.output) else summary.content;
    r := Reply(message, history, reply, results + [t]);
  }

  /** The controller as the source runs it. */
  method Chat(message: string, history: seq<Turn>, backend: Backend, external: External) returns (r: TurnResult)
    ensures Registered(Detect(message))
    ensures r == Converse(message, history, backend, external, Detect(message))
  {
    DetectRegistered(message);
    var detected := Detect(message);
    var opening := BuildOpening(message, history);
    var response := backend(Request(opening, true, 300));
    if response.Failed? {
      r := RunFallback(message, history, opening, [], detected, backend, external);
      return;
    }
    var content, calls := response.content, response.calls;
    if calls == [] {
      return Reply(message, history, Some(if content.Some? && content.value != "" then content.value else DefaultReply), []);
    }
    var asked := opening + [ToolCalls(if content.Some? then content.value else "", calls)];
    var d := RunCalls(calls, asked, external);
    if !d.raised {
      var followUp := backend(Request(d.messages, false, 300));
      if followUp.Completed? {
        return Reply(message, history, followUp.content, d.results);
      }
    }
    r := RunFallback(message, history, d.messages, d.results, detected, backend, external);
  }
}
