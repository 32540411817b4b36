/**
 The bounded tool-calling turn of src/erp/ai/whatsapp_support_agent.py.

 The language model and the tools are inputs: functions that may answer anything.
 */
module Turn {
  import opened Wrappers
  import opened Math

  const MAX_TOOL_CALLS := 5

  const DEFAULT_TOOLS := [
    "create_support_issue", "get_my_support_issues", "search_tenant_knowledge",
    "create_appointment", "get_my_appointments", "update_my_appointment",
    "send_customer_otp", "verify_customer_otp", "escalate_to_human"]

  datatype Binding = Binding(toolName: string, isEnabled: bool)

  datatype ToolCall = ToolCall(id: Option<string>, name: string, arguments: string)

  /** What running a tool came to; bad arguments are noticed before the tool is run. */
  datatype ToolOutcome =
    | BadArguments(message: string)
    | Rejected(message: string)
    | Crashed
    | Returned(result: string, handoff: bool)

  datatype Answer = LimitReached | NotEnabled | Error(message: string) | ActionFailed | Result(text: string)

  datatype Message =
    | Plain(role: string, content: string)
    | Assistant(text: Option<string>, calls: seq<ToolCall>)
    | Tool(callId: Option<string>, answer: Answer)

  datatype Response = Unavailable | Response(content: Option<string>, calls: seq<ToolCall>)

  datatype Outcome = ProviderFailed | EmptyReply | LimitExceeded | Reply(text: string, handoff: bool)

  /** The n-th request of a turn, with the transcript sent along. */
  type Model = (nat, seq<Message>) -> Response

  /** The n-th counted call of a turn. */
  type Tools = (nat, ToolCall) -> ToolOutcome

  // ---------------------------------------------------------------- enabled tools

  predicate Enables(rows: seq<Binding>, name: string) {
    exists i :: 0 <= i < |rows| && rows[i].isEnabled && rows[i].toolName == name
  }

  function Filter(names: seq<string>, rows: seq<Binding>): seq<string> {
    if names == [] then []
    else (if Enables(rows, names[0]) then [names[0]] else []) + Filter(names[1..], rows)
  }

  function ConfiguredTools(rows: seq<Binding>): seq<string> {
    if rows == [] then DEFAULT_TOOLS else Filter(DEFAULT_TOOLS, rows)
  }

  lemma {:induction false} FilterMembers(names: seq<string>, rows: seq<Binding>, name: string)
    ensures name in Filter(names, rows) <==> name in names && Enables(rows, name)
  {
    if names != [] {
      FilterMembers(names[1..], rows, name);
    }
  }

  /** A tenant's bindings can only narrow the registered tools, and no row at all leaves them all. */
  lemma ConfiguredMeansEnabled(rows: seq<Binding>, name: string)
    ensures name in ConfiguredTools(rows) <==>
              && name in {"create_support_issue", "get_my_support_issues", "search_tenant_knowledge", "create_appointment",
                          "get_my_appointments", "update_my_appointment", "send_customer_otp", "verify_customer_otp",
                          "escalate_to_human"}
              && (rows == [] || exists i :: 0 <= i < |rows| && rows[i].isEnabled && rows[i].toolName == name)
  {
    FilterMembers(DEFAULT_TOOLS, rows, name);
  }

  // ---------------------------------------------------------------- transcripts

  /** The calls that await a reply once `m` follows a transcript with `open` ones; None if it may not follow. */
  function Advance(open: seq<ToolCall>, m: Message): Option<seq<ToolCall>> {
    match m
    case Plain(_, _) => if open == [] then Some([]) else None
    case Assistant(_, calls) => if open == [] then Some(calls) else None
    case Tool(id, _) => if open != [] && open[0].id == id then Some(open[1..]) else None
  }

  /** The calls still awaiting their reply at the end of `ms`; None for a malformed transcript. */
  function Awaiting(ms: seq<Message>): Option<seq<ToolCall>> {
    if ms == [] then Some([])
    else
      match Awaiting(ms[..|ms| - 1])
      case None => None
      case Some(open) => Advance(open, ms[|ms| - 1])
  }

  predicate WellFormed(ms: seq<Message>) {
    Awaiting(ms) == Some([])
  }

  lemma AwaitingLast(ms: seq<Message>, m: Message)
    requires Awaiting(ms).Some?
    ensures Awaiting(ms + [m]) == Advance(Awaiting(ms).value, m)
  {
    assert (ms + [m])[..|ms|] == ms;
  }

  lemma {:induction false} AwaitingPrefix(ms: seq<Message>, n: nat)
    requires n <= |ms| && Awaiting(ms).Some?
    ensures Awaiting(ms[..n]).Some?
  {
    if n < |ms| {
      AwaitingPrefix(ms[..|ms| - 1], n);
      assert ms[..|ms| - 1][..n] == ms[..n];
    } else {
      assert ms[..n] == ms;
    }
  }

  lemma DropOne(calls: seq<ToolCall>, k: nat)
    requires k < |calls|
    ensures |calls[k..]| == |calls| - k && calls[k..][0] == calls[k] && calls[k..][1..] == calls[k + 1..]
  {
  }

  lemma AwaitingLastOf(ms: seq<Message>)
    requires ms != [] && Awaiting(ms).Some?
    ensures var before := ms[..|ms| - 1];
            Awaiting(before).Some? && Awaiting(ms) == Advance(Awaiting(before).value, ms[|ms| - 1])
  {
  }

  /** While an assistant message at `i` is being answered, the calls not yet reached are awaited. */
  lemma {:induction false} AwaitingCountsDown(ms: seq<Message>, i: nat, calls: seq<ToolCall>, k: nat)
    requires |ms| == i + 1 + k && k <= |calls| && ms[i].Assistant? && ms[i].calls == calls && Awaiting(ms).Some?
    ensures Awaiting(ms) == Some(calls[k..])
    decreases k
  {
    AwaitingLastOf(ms);
    if k > 0 {
      AwaitingCountsDown(ms[..i + k], i, calls, k - 1);
      DropOne(calls, k - 1);
    } else {
      assert calls[0..] == calls;
    }
  }

  lemma NextAfter(ms: seq<Message>, i: nat, p: nat)
    requires i < p < |ms| && ms[i].Assistant? && p <= i + 1 + |ms[i].calls| && Awaiting(ms).Some?
    ensures p <= i + |ms[i].calls| ==> ms[p].Tool? && ms[p].callId == ms[i].calls[p - i - 1].id
    ensures p == i + 1 + |ms[i].calls| ==> !ms[p].Tool?
  {
    var calls, k := ms[i].calls, p - i - 1;
    AwaitingPrefix(ms, p + 1);
    AwaitingLastOf(ms[..p + 1]);
    assert ms[..p + 1][..p] == ms[..p] && ms[..p + 1][p] == ms[p];
    AwaitingCountsDown(ms[..p], i, calls, k);
    if k < |calls| {
      DropOne(calls, k);
    } else {
      assert calls[k..] == [];
    }
  }

  /** In a well-formed transcript an assistant message with k calls has exactly their k replies, in order. */
  lemma WellFormedMeansAnswered(ms: seq<Message>, i: nat)
    requires WellFormed(ms) && i < |ms| && ms[i].Assistant?
    ensures var calls := ms[i].calls;
            && i + |calls| < |ms|
            && (forall p :: i < p <= i + |calls| ==> ms[p].Tool? && ms[p].callId == calls[p - i - 1].id)
            && (i + 1 + |calls| < |ms| ==> !ms[i + 1 + |calls|].Tool?)
  {
    var calls := ms[i].calls;
    if |ms| <= i + 1 + |calls| {
      AwaitingCountsDown(ms, i, calls, |ms| - i - 1);
      assert |calls[|ms| - i - 1..]| == i + 1 + |calls| - |ms|;
    } else {
      NextAfter(ms, i, i + 1 + |calls|);
    }
    forall p | i < p <= i + |calls| ensures ms[p].Tool? && ms[p].callId == calls[p - i - 1].id {
      NextAfter(ms, i, p);
    }
  }

  function CallsOf(ms: seq<Message>): seq<ToolCall> {
    if ms == [] then []
    else CallsOf(ms[..|ms| - 1]) + if ms[|ms| - 1].Assistant? then ms[|ms| - 1].calls else []
  }

  function AnswersOf(ms: seq<Message>): seq<Answer> {
    if ms == [] then []
    else AnswersOf(ms[..|ms| - 1]) + if ms[|ms| - 1].Tool? then [ms[|ms| - 1].answer] else []
  }

  lemma CallsOfLast(ms: seq<Message>, m: Message)
    ensures CallsOf(ms + [m]) == CallsOf(ms) + if m.Assistant? then m.calls else []
    ensures AnswersOf(ms + [m]) == AnswersOf(ms) + if m.Tool? then [m.answer] else []
  {
    assert (ms + [m])[..|ms|] == ms;
  }

  // ---------------------------------------------------------------- what each call is answered

  /** The reply to the n-th call of a turn. */
  function AnswerTo(n: nat, call: ToolCall, enabled: seq<string>, tools: Tools): Answer {
    if n >= MAX_TOOL_CALLS then LimitReached
    else if call.name !in enabled then NotEnabled
    else
      match tools(n, call)
      case BadArguments(m) => Error(m[..Min(|m|, 500)])
      case Rejected(m) => Error(m[..Min(|m|, 500)])
      case Crashed => ActionFailed
      case Returned(r, _) => Result(r)
  }

  predicate Runs(n: nat, call: ToolCall, enabled: seq<string>, tools: Tools) {
    n < MAX_TOOL_CALLS && call.name in enabled && !tools(n, call).BadArguments?
  }

  predicate HandsOff(n: nat, call: ToolCall, enabled: seq<string>, tools: Tools) {
    && Runs(n, call, enabled, tools) && call.name == "escalate_to_human"
    && tools(n, call).Returned? && tools(n, call).handoff
  }

  /** Some counted call escalated to a human and the tool confirmed it. */
  predicate HandedOff(calls: seq<ToolCall>, enabled: seq<string>, tools: Tools) {
    exists i :: 0 <= i < |calls| && HandsOff(i, calls[i], enabled, tools)
  }

  function Answers(calls: seq<ToolCall>, enabled: seq<string>, tools: Tools): seq<Answer> {
    seq(|calls|, i requires 0 <= i < |calls| => AnswerTo(i, calls[i], enabled, tools))
  }

  /** The tools that were run, in order. */
  function Ran(calls: seq<ToolCall>, enabled: seq<string>, tools: Tools): seq<string> {
    if calls == [] then []
    else
      var n := |calls| - 1;
      Ran(calls[..n], enabled, tools) + if Runs(n, calls[n], enabled, tools) then [calls[n].name] else []
  }

  lemma {:induction false} RanIsBounded(calls: seq<ToolCall>, enabled: seq<string>, tools: Tools)
    ensures |Ran(calls, enabled, tools)| <= Min(|calls|, MAX_TOOL_CALLS)
    ensures forall name <- Ran(calls, enabled, tools) :: name in enabled
  {
    if calls != [] {
      RanIsBounded(calls[..|calls| - 1], enabled, tools);
    }
  }

  // ---------------------------------------------------------------- the turn

  function Opening(prompt: string, history: seq<(string, string)>, inbound: string): seq<Message> {
    var recent := history[Max(0, |history| - 20)..];
    [Plain("system", prompt)]
    + seq(|recent|, i requires 0 <= i < |recent| => Plain(recent[i].0, recent[i].1))
    + [Plain("user", inbound[..Min(|inbound|, 8000)])]
  }

  lemma {:induction false} PlainIsWellFormed(ms: seq<Message>)
    requires forall i :: 0 <= i < |ms| ==> ms[i].Plain?
    ensures WellFormed(ms) && CallsOf(ms) == [] && AnswersOf(ms) == []
  {
    if ms != [] {
      PlainIsWellFormed(ms[..|ms| - 1]);
    }
  }

  /** The state of a turn that has sent `ms` so far. */
  ghost predicate Tracks(ms: seq<Message>, open: seq<ToolCall>, done: seq<ToolCall>, enabled: seq<string>, tools: Tools,
                         executed: nat, ran: seq<string>, handoff: bool)
  {
    && Awaiting(ms) == Some(open)
    && CallsOf(ms) == done + open
    && AnswersOf(ms) == Answers(done, enabled, tools)
    && executed == Min(|done|, MAX_TOOL_CALLS)
    && ran == Ran(done, enabled, tools)
    && handoff == HandedOff(done, enabled, tools)
  }

  lemma TracksAnswer(ms: seq<Message>, open: seq<ToolCall>, done: seq<ToolCall>, enabled: seq<string>, tools: Tools,
                     executed: nat, ran: seq<string>, handoff: bool)
    requires Tracks(ms, open, done, enabled, tools, executed, ran, handoff) && open != []
    ensures var n, call := |done|, open[0];
            Tracks(ms + [Tool(call.id, AnswerTo(n, call, enabled, tools))], open[1..], done + [call], enabled, tools,
                   Min(executed + 1, MAX_TOOL_CALLS),
                   ran + if Runs(n, call, enabled, tools) then [call.name] else [],
                   handoff || HandsOff(n, call, enabled, tools))
  {
    var n, call := |done|, open[0];
    var m := Tool(call.id, AnswerTo(n, call, enabled, tools));
    AwaitingLast(ms, m);
    CallsOfLast(ms, m);
    assert done + open == (done + [call]) + open[1..];
    OneMoreCall(done, call, enabled, tools);
  }

  lemma OneMoreCall(done: seq<ToolCall>, call: ToolCall, enabled: seq<string>, tools: Tools)
    ensures Answers(done + [call], enabled, tools) == Answers(done, enabled, tools) + [AnswerTo(|done|, call, enabled, tools)]
    ensures Ran(done + [call], enabled, tools)
         == Ran(done, enabled, tools) + if Runs(|done|, call, enabled, tools) then [call.name] else []
    ensures HandedOff(done + [call], enabled, tools)
        <==> HandedOff(done, enabled, tools) || HandsOff(|done|, call, enabled, tools)
  {
    var all := done + [call];
    assert all[..|done|] == done && all[|done|] == call;
    if HandedOff(done, enabled, tools) {
      var i :| 0 <= i < |done| && HandsOff(i, done[i], enabled, tools);
      assert HandsOff(i, all[i], enabled, tools);
    }
    if HandsOff(|done|, call, enabled, tools) {
      assert HandsOff(|done|, all[|done|], enabled, tools);
    }
  }

  lemma TracksAssistant(ms: seq<Message>, text: Option<string>, calls: seq<ToolCall>, done: seq<ToolCall>,
                        enabled: seq<string>, tools: Tools, executed: nat, ran: seq<string>, handoff: bool)
    requires Tracks(ms, [], done, enabled, tools, executed, ran, handoff)
    ensures Tracks(ms + [Assistant(text, calls)], calls, done, enabled, tools, executed, ran, handoff)
  {
    AwaitingLast(ms, Assistant(text, calls));
    CallsOfLast(ms, Assistant(text, calls));
    assert done + [] == done;
  }

  lemma NextCall(done: seq<ToolCall>, calls: seq<ToolCall>, j: nat)
    requires j < |calls|
    ensures done + calls[..j + 1] == (done + calls[..j]) + [calls[j]]
    ensures calls[j..] != [] && calls[j..][0] == calls[j] && calls[j..][1..] == calls[j + 1..]
  {
  }

  /** The inner loop: every call of one response gets its reply. */
  method AnswerCalls(calls: seq<ToolCall>, enabled: seq<string>, tools: Tools, messages0: seq<Message>,
                     executed0: nat, ran0: seq<string>, handoff0: bool, ghost done: seq<ToolCall>)
    returns (messages: seq<Message>, executed: nat, ran: seq<string>, handoff: bool)
    requires Tracks(messages0, calls, done, enabled, tools, executed0, ran0, handoff0)
    ensures messages0 <= messages && |messages| == |messages0| + |calls|
    ensures Tracks(messages, [], done + calls, enabled, tools, executed, ran, handoff)
  {
    messages, executed, ran, handoff := messages0, executed0, ran0, handoff0;
    assert done + calls[..0] == done;
    for j := 0 to |calls|
      invariant messages0 <= messages && |messages| == |messages0| + j
      invariant Tracks(messages, calls[j..], done + calls[..j], enabled, tools, executed, ran, handoff)
    {
      var call := calls[j];
      TracksAnswer(messages, calls[j..], done + calls[..j], enabled, tools, executed, ran, handoff);
      NextCall(done, calls, j);
      var answer := LimitReached;
      if executed < MAX_TOOL_CALLS {
        var n := executed;
        executed := executed + 1;
        answer := NotEnabled;
        if call.name in enabled {
          var result := tools(n, call);
          if !result.BadArguments? {
            ran := ran + [call.name];
          }
          match result {
            case Returned(text, handedOff) =>
              handoff := handoff || (call.name == "escalate_to_human" && handedOff);
              answer := Result(text);
            case Crashed => answer := ActionFailed;
            case BadArguments(m) => answer := Error(m[..Min(|m|, 500)]);
            case Rejected(m) => answer := Error(m[..Min(|m|, 500)]);
          }
        }
      }
      messages := messages + [Tool(call.id, answer)];
    }
    assert done + calls[..|calls|] == done + calls;
  }

  /** After the transcript `t` the model gave `r`, and `u` is `t` with it and a reply to each of its calls. */
  predicate NextRound(t: seq<Message>, u: seq<Message>, r: Response) {
    && r.Response? && r.calls != []
    && |u| == |t| + 1 + |r.calls| && u[..|t| + 1] == t + [Assistant(r.content, r.calls)]
  }

  /** A response with tool calls: it joins the transcript, followed by the reply to each call. */
  method Respond(text: Option<string>, calls: seq<ToolCall>, enabled: seq<string>, tools: Tools, messages0: seq<Message>,
                 executed0: nat, ran0: seq<string>, handoff0: bool, ghost done: seq<ToolCall>)
    returns (messages: seq<Message>, executed: nat, ran: seq<string>, handoff: bool)
    requires calls != [] && Tracks(messages0, [], done, enabled, tools, executed0, ran0, handoff0)
    ensures NextRound(messages0, messages, Response(text, calls))
    ensures Tracks(messages, [], done + calls, enabled, tools, executed, ran, handoff)
  {
    TracksAssistant(messages0, text, calls, done, enabled, tools, executed0, ran0, handoff0);
    var said := messages0 + [Assistant(text, calls)];
    messages, executed, ran, handoff := AnswerCalls(calls, enabled, tools, said, executed0, ran0, handoff0, done);
  }

  // ---------------------------------------------------------------- what a turn reports

  /** Each of the first five calls to an enabled tool has its outcome for an answer; no other call is run. */
  predicate AnsweredByOutcome(answers: seq<Answer>, calls: seq<ToolCall>, enabled: seq<string>, tools: Tools) {
    && |answers| == |calls|
    && forall i :: 0 <= i < |calls| ==>
         var answer, ran := answers[i], i < 5 && calls[i].name in enabled;
         && (answer == LimitReached <==> 5 <= i)
         && (answer == NotEnabled <==> i < 5 && calls[i].name !in enabled)
         && (answer.Result? ==> ran && tools(i, calls[i]).Returned? && answer.text == tools(i, calls[i]).result)
         && (answer == ActionFailed ==> ran && tools(i, calls[i]).Crashed?)
         && (answer.Error? ==>
               && ran && (tools(i, calls[i]).BadArguments? || tools(i, calls[i]).Rejected?)
               && answer.message <= tools(i, calls[i]).message
               && |answer.message| == if |tools(i, calls[i]).message| <= 500 then |tools(i, calls[i]).message| else 500)
  }

  lemma AnswersAreOutcomes(calls: seq<ToolCall>, enabled: seq<string>, tools: Tools)
    ensures AnsweredByOutcome(Answers(calls, enabled, tools), calls, enabled, tools)
  {
  }

  /** The calls that reached their tool: among the first five, enabled, and with good arguments. */
  function Reached(calls: seq<ToolCall>, enabled: seq<string>, tools: Tools): set<int> {
    set i | 0 <= i < |calls| && i < 5 && calls[i].name in enabled && !tools(i, calls[i]).BadArguments?
  }

  /** How many of the calls before `n` reached their tool. */
  function ReachedBefore(calls: seq<ToolCall>, enabled: seq<string>, tools: Tools, n: int): set<int> {
    set i | i in Reached(calls, enabled, tools) && i < n
  }

  /** `ran` names the tools that were reached, call by call. */
  predicate RanReached(ran: seq<string>, calls: seq<ToolCall>, enabled: seq<string>, tools: Tools) {
    && |ran| == |Reached(calls, enabled, tools)|
    && forall i <- Reached(calls, enabled, tools) ::
         var k := |ReachedBefore(calls, enabled, tools, i)|;
         k < |ran| && ran[k] == calls[i].name
  }

  lemma OneMoreReached(calls: seq<ToolCall>, enabled: seq<string>, tools: Tools)
    requires calls != []
    ensures var n, before := |calls| - 1, calls[..|calls| - 1];
            && Reached(calls, enabled, tools)
               == Reached(before, enabled, tools) + (if Runs(n, calls[n], enabled, tools) then {n} else {})
            && n !in Reached(before, enabled, tools)
            && ReachedBefore(calls, enabled, tools, n) == Reached(before, enabled, tools)
            && forall i <- Reached(before, enabled, tools) ::
                 ReachedBefore(calls, enabled, tools, i) == ReachedBefore(before, enabled, tools, i)
  {
    var n, before := |calls| - 1, calls[..|calls| - 1];
    assert forall i :: 0 <= i < n ==> before[i] == calls[i];
    forall i <- Reached(before, enabled, tools)
      ensures ReachedBefore(calls, enabled, tools, i) == ReachedBefore(before, enabled, tools, i)
    {
    }
  }

  lemma {:induction false} RanIsReached(calls: seq<ToolCall>, enabled: seq<string>, tools: Tools)
    ensures RanReached(Ran(calls, enabled, tools), calls, enabled, tools)
  {
    if calls == [] {
      assert Reached(calls, enabled, tools) == {};
    } else {
      var n, before := |calls| - 1, calls[..|calls| - 1];
      RanIsReached(before, enabled, tools);
      OneMoreReached(calls, enabled, tools);
      forall i <- Reached(calls, enabled, tools)
        ensures var k := |ReachedBefore(calls, enabled, tools, i)|;
                k < |Ran(calls, enabled, tools)| && Ran(calls, enabled, tools)[k] == calls[i].name
      {
        if i < n {
          assert before[i] == calls[i];
        }
      }
    }
  }

  /** A call among the first five, to the enabled escalation, whose tool confirmed the handoff. */
  predicate Escalated(calls: seq<ToolCall>, enabled: seq<string>, tools: Tools, i: int) {
    && 0 <= i < |calls| && i < 5
    && calls[i].name == "escalate_to_human" && calls[i].name in enabled
    && tools(i, calls[i]).Returned? && tools(i, calls[i]).handoff
  }

  lemma HandedOffMeansEscalated(calls: seq<ToolCall>, enabled: seq<string>, tools: Tools)
    ensures HandedOff(calls, enabled, tools) <==> exists i :: Escalated(calls, enabled, tools, i)
  {
    if HandedOff(calls, enabled, tools) {
      var i :| 0 <= i < |calls| && HandsOff(i, calls[i], enabled, tools);
      assert Escalated(calls, enabled, tools, i);
    }
    if i :| Escalated(calls, enabled, tools, i) {
      assert HandsOff(i, calls[i], enabled, tools);
    }
  }

  /** What a turn reports, for the transcript it ends with. */
  ghost predicate Reports(messages: seq<Message>, enabled: seq<string>, tools: Tools, executed: nat, ran: seq<string>) {
    var calls := CallsOf(messages);
    && WellFormed(messages)
    && AnsweredByOutcome(AnswersOf(messages), calls, enabled, tools)
    && RanReached(ran, calls, enabled, tools)
    && executed == (if |calls| <= 5 then |calls| else 5)
    && |ran| <= executed
    && (forall name <- ran :: name in enabled)
  }

  lemma TracksReports(ms: seq<Message>, done: seq<ToolCall>, enabled: seq<string>, tools: Tools,
                      executed: nat, ran: seq<string>, handoff: bool)
    requires Tracks(ms, [], done, enabled, tools, executed, ran, handoff)
    ensures Reports(ms, enabled, tools, executed, ran)
    ensures CallsOf(ms) == done && (handoff <==> exists i :: Escalated(CallsOf(ms), enabled, tools, i))
  {
    assert done + [] == done;
    RanIsBounded(done, enabled, tools);
    AnswersAreOutcomes(done, enabled, tools);
    RanIsReached(done, enabled, tools);
    HandedOffMeansEscalated(done, enabled, tools);
  }

  /** How a response without tool calls ends the turn. */
  function Conclude(response: Response, strip: string -> string, handoff: bool): (outcome: Outcome)
    ensures Concludes(response, strip, outcome) && (outcome.Reply? ==> outcome.handoff == handoff)
  {
    if response.Unavailable? then ProviderFailed
    else if response.content.None? || strip(response.content.value) == "" then EmptyReply
    else Reply(strip(response.content.value)[..Min(|strip(response.content.value)|, 4000)], handoff)
  }

  /** No answer, an empty one, or the first 4000 characters of the stripped one. */
  predicate Concludes(last: Response, strip: string -> string, outcome: Outcome) {
    && !outcome.LimitExceeded?
    && (outcome.ProviderFailed? <==> last.Unavailable?)
    && (outcome.EmptyReply? <==> last.Response? && (last.content == None || strip(last.content.value) == ""))
    && (outcome.Reply? ==>
          var full := strip(last.content.value);
          outcome.text <= full && |outcome.text| == if |full| <= 4000 then |full| else 4000)
  }

  /** The prompt, the last twenty messages of the history in order, and the first 8000 characters received. */
  predicate OpensWith(ms: seq<Message>, prompt: string, history: seq<(string, string)>, inbound: string) {
    var n := if |history| <= 20 then |history| else 20;
    && |ms| == n + 2
    && ms[0] == Plain("system", prompt)
    && (forall i :: 1 <= i <= n ==> ms[i] == Plain(history[|history| - n + i - 1].0, history[|history| - n + i - 1].1))
    && ms[n + 1].Plain? && ms[n + 1].role == "user"
    && ms[n + 1].content <= inbound && |ms[n + 1].content| == if |inbound| <= 8000 then |inbound| else 8000
  }

  lemma OpeningOpens(prompt: string, history: seq<(string, string)>, inbound: string)
    ensures OpensWith(Opening(prompt, history, inbound), prompt, history, inbound)
  {
  }

  predicate RoundAt(shown: seq<seq<Message>>, model: Model, j: nat)
    requires j + 1 < |shown|
  {
    NextRound(shown[j], shown[j + 1], model(j, shown[j]))
  }

  /** Every transcript sent to the model was well formed, and each one was the next after the one before it. */
  predicate Shown(shown: seq<seq<Message>>, model: Model) {
    && (forall t <- shown :: WellFormed(t))
    && (forall j :: 0 <= j < |shown| - 1 ==> RoundAt(shown, model, j))
  }

  /** The transcript to be sent next. */
  predicate ToBeSent(shown: seq<seq<Message>>, opening: seq<Message>, messages: seq<Message>, model: Model) {
    if shown == [] then messages == opening else shown[0] == opening && NextRound(shown[|shown| - 1], messages, model(|shown| - 1, shown[|shown| - 1]))
  }

  lemma OpeningTracks(prompt: string, history: seq<(string, string)>, inbound: string, enabled: seq<string>, tools: Tools)
    ensures var opening := Opening(prompt, history, inbound);
            && OpensWith(opening, prompt, history, inbound)
            && Tracks(opening, [], [], enabled, tools, 0, [], false)
  {
    OpeningOpens(prompt, history, inbound);
    PlainIsWellFormed(Opening(prompt, history, inbound));
  }

  lemma ShownAgain(shown: seq<seq<Message>>, opening: seq<Message>, messages: seq<Message>, model: Model)
    requires Shown(shown, model) && ToBeSent(shown, opening, messages, model) && Awaiting(messages) == Some([])
    ensures Shown(shown + [messages], model) && (shown + [messages])[0] == opening
    ensures (shown + [messages])[|shown|] == messages
  {
    var all := shown + [messages];
    forall j | 0 <= j < |all| - 1 ensures RoundAt(all, model, j) {
      assert j < |shown| - 1 ==> RoundAt(shown, model, j);
    }
  }

  /** What is known of a turn before a request: `messages` is to be sent, and answers all calls `done`. */
  ghost predicate InTurn(shown: seq<seq<Message>>, opening: seq<Message>, messages: seq<Message>, model: Model,
                         done: seq<ToolCall>, enabled: seq<string>, tools: Tools,
                         executed: nat, ran: seq<string>, handoff: bool)
  {
    && |shown| <= |done|
    && Shown(shown, model) && ToBeSent(shown, opening, messages, model)
    && Tracks(messages, [], done, enabled, tools, executed, ran, handoff)
  }

  /** The turn ended with `last`, a response without tool calls to the whole transcript. */
  ghost predicate Ended(outcome: Outcome, shown: seq<seq<Message>>, opening: seq<Message>, messages: seq<Message>,
                        model: Model, strip: string -> string, enabled: seq<string>, tools: Tools)
  {
    && shown != [] && shown[0] == opening && Shown(shown, model)
    && shown[|shown| - 1] == messages
    && var last := model(|shown| - 1, messages);
       && (last.Unavailable? || last.calls == [])
       && Concludes(last, strip, outcome)
       && (outcome.Reply? ==> (outcome.handoff <==> exists i :: Escalated(CallsOf(messages), enabled, tools, i)))
  }

  lemma TurnEnds(shown: seq<seq<Message>>, opening: seq<Message>, messages: seq<Message>, model: Model,
                 strip: string -> string, done: seq<ToolCall>, enabled: seq<string>, tools: Tools,
                 executed: nat, ran: seq<string>, handoff: bool)
    requires InTurn(shown, opening, messages, model, done, enabled, tools, executed, ran, handoff)
    requires var last := model(|shown|, messages); last.Unavailable? || last.calls == []
    ensures Ended(Conclude(model(|shown|, messages), strip, handoff), shown + [messages], opening, messages,
                  model, strip, enabled, tools)
    ensures Reports(messages, enabled, tools, executed, ran)
  {
    TracksReports(messages, done, enabled, tools, executed, ran, handoff);
    ShownAgain(shown, opening, messages, model);
  }

  lemma TurnGoesOn(shown: seq<seq<Message>>, opening: seq<Message>, before: seq<Message>, messages: seq<Message>,
                   model: Model, done: seq<ToolCall>, calls: seq<ToolCall>, enabled: seq<string>, tools: Tools,
                   executed: nat, ran: seq<string>, handoff: bool)
    requires |shown| <= |done| && Shown(shown, model) && ToBeSent(shown, opening, before, model) && WellFormed(before)
    requires NextRound(before, messages, model(|shown|, before)) && calls == model(|shown|, before).calls
    requires Tracks(messages, [], done + calls, enabled, tools, executed, ran, handoff)
    ensures InTurn(shown + [before], opening, messages, model, done + calls, enabled, tools, executed, ran, handoff)
  {
    ShownAgain(shown, opening, before, model);
  }

  /** The turn used up its requests, and its last response had tool calls still. */
  ghost predicate Exhausted(shown: seq<seq<Message>>, opening: seq<Message>, messages: seq<Message>, model: Model) {
    && |shown| == 6 && shown[0] == opening && Shown(shown, model)
    && NextRound(shown[5], messages, model(5, shown[5]))
  }

  lemma TurnIsExhausted(shown: seq<seq<Message>>, opening: seq<Message>, messages: seq<Message>, model: Model,
                        done: seq<ToolCall>, enabled: seq<string>, tools: Tools,
                        executed: nat, ran: seq<string>, handoff: bool)
    requires InTurn(shown, opening, messages, model, done, enabled, tools, executed, ran, handoff) && |shown| == 6
    ensures Exhausted(shown, opening, messages, model)
    ensures executed == 5 && Reports(messages, enabled, tools, executed, ran)
  {
    TracksReports(messages, done, enabled, tools, executed, ran, handoff);
  }

  /**
   One turn. `shown` are the transcripts sent to the model, `messages` the transcript at the end,
   `executed` the counted calls and `ran` the tools that were run.
   */
  method RunSupportTurn(rows: seq<Binding>, prompt: string, history: seq<(string, string)>, inbound: string,
                        model: Model, tools: Tools, strip: string -> string)
    returns (outcome: Outcome, messages: seq<Message>, shown: seq<seq<Message>>, executed: nat, ran: seq<string>)
    ensures 1 <= |shown| <= 6 && OpensWith(shown[0], prompt, history, inbound)
    ensures Reports(messages, ConfiguredTools(rows), tools, executed, ran)
    ensures outcome.LimitExceeded? ==> executed == 5 && Exhausted(shown, shown[0], messages, model)
    ensures !outcome.LimitExceeded? ==>
              Ended(outcome, shown, shown[0], messages, model, strip, ConfiguredTools(rows), tools)
  {
    var enabled := ConfiguredTools(rows);
    messages := Opening(prompt, history, inbound);
    ghost var opening := messages;
    OpeningTracks(prompt, history, inbound, enabled, tools);
    shown, executed, ran := [], 0, [];
    var handoff := false;
    ghost var done: seq<ToolCall> := [];
    for round := 0 to MAX_TOOL_CALLS + 1
      invariant |shown| == round
      invariant InTurn(shown, opening, messages, model, done, enabled, tools, executed, ran, handoff)
    {
      var response := model(round, messages);
      if response.Unavailable? || response.calls == [] {
        TurnEnds(shown, opening, messages, model, strip, done, enabled, tools, executed, ran, handoff);
        return Conclude(response, strip, handoff), messages, shown + [messages], executed, ran;
      }
      ghost var before := messages;
      ghost var earlier := shown;
      shown := shown + [messages];
      messages, executed, ran, handoff :=
        Respond(response.content, response.calls, enabled, tools, messages, executed, ran, handoff, done);
      TurnGoesOn(earlier, opening, before, messages, model, done, response.calls, enabled, tools, executed, ran, handoff);
      done := done + response.calls;
    }
    TurnIsExhausted(shown, opening, messages, model, done, enabled, tools, executed, ran, handoff);
    return LimitExceeded, messages, shown, executed, ran;
  }
}
