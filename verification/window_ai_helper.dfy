/** The `window.ai` bridge as the tab-content script handles it: a message
    posted to the `aiHandler` handler is decoded into a `Function` and a
    payload, and each call logs its outcome to the page's console.

    The language model is the oracle `Llm`; a session is identified by the
    system prompt it was created with. */
module WindowAIHelper {
  import opened Wrappers
  import opened JsValues
  import ConsoleLog

  // ---------------------------------------------------- handler names

  datatype HandlerName = AiHandler {
    function RawValue(): string {
      match this
      case AiHandler => "aiHandler"
    }
  }

  const AllHandlerNames: seq<HandlerName> := [AiHandler]

  /** `scriptMessageHandlerNames()`: the raw value of every handler name. */
  function ScriptMessageHandlerNames(): (names: seq<string>)
    ensures |names| == |AllHandlerNames|
    ensures forall h: HandlerName :: h.RawValue() in names
    ensures forall i :: 0 <= i < |names| ==> names[i] == "aiHandler"
  {
    var names := seq(|AllHandlerNames|, i requires 0 <= i < |AllHandlerNames| => AllHandlerNames[i].RawValue());
    assert names[0] == AiHandler.RawValue();
    names
  }

  // -------------------------------------------------------- functions

  datatype Function = CreateTextSession | Prompt {
    function RawValue(): string {
      match this
      case CreateTextSession => "createTextSession"
      case Prompt => "prompt"
    }
  }

  /** `Function(rawValue:)`. */
  function FunctionFromRawValue(raw: string): (f: Option<Function>)
    ensures f.Some? <==> raw == "createTextSession" || raw == "prompt"
    ensures f.Some? ==> f.value.RawValue() == raw
  {
    if raw == "createTextSession" then Some(CreateTextSession)
    else if raw == "prompt" then Some(Prompt)
    else None
  }

  lemma FunctionRawValueRoundTrip(f: Function)
    ensures FunctionFromRawValue(f.RawValue()) == Some(f)
  {
  }

  // --------------------------------------------------------- decoding

  datatype ApiCall = ApiCall(fn: Function, payload: string)

  /** The guard in `userContentController(_:didReceiveScriptMessage:)`. */
  function DecodeMessage(body: JsValue): (call: Option<ApiCall>)
    ensures call.Some? ==>
              StringField(body, "function").Some?
              && FunctionFromRawValue(StringField(body, "function").value) == Some(call.value.fn)
              && StringField(body, "payload") == Some(call.value.payload)
  {
    var raw :- StringField(body, "function");
    var fn :- FunctionFromRawValue(raw);
    var payload :- StringField(body, "payload");
    Some(ApiCall(fn, payload))
  }

  /** A body is handled exactly when it is a dictionary whose `function` is
      the raw value of a known function and whose `payload` is a string. */
  lemma DecodeMessageAccepts(body: JsValue)
    ensures DecodeMessage(body).Some? <==>
              && body.JsObject?
              && "function" in body.fields && body.fields["function"].JsString?
              && FunctionFromRawValue(body.fields["function"].text).Some?
              && "payload" in body.fields && body.fields["payload"].JsString?
  {
  }

  /** The object the injected `window.ai` script posts for a call of
      `window.ai.<f>(argument)`. */
  function InjectedMessage(f: Function, argument: JsValue): JsValue {
    JsObject(map["function" := JsString(f.RawValue()), "payload" := argument])
  }

  /** What the page script posts decodes to the call it made; an argument
      that is not a string is ignored. */
  lemma InjectedMessagesDecode(f: Function, argument: JsValue)
    ensures argument.JsString? ==> DecodeMessage(InjectedMessage(f, argument)) == Some(ApiCall(f, argument.text))
    ensures !argument.JsString? ==> DecodeMessage(InjectedMessage(f, argument)).None?
  {
  }

  // --------------------------------------------------------- handling

  /** A text session, created with a system prompt. */
  datatype Agent = Agent(systemPrompt: string)

  /** `WindowAILLMAgent.make` succeeds or throws an error with the given
      description; `output` is the agent's answer to a prompt. */
  datatype Llm = Llm(make: string -> Result<(), string>, output: (Agent, string) -> string)

  /** The session after a call and the texts logged to the console, in order. */
  datatype Handled = Handled(agent: Option<Agent>, logged: seq<string>)

  const SuccessText := "success"
  const FailurePrefix := "failure. error: "
  const Thinking := "thinking..."
  const NoAnswer := "null"

  /** `handleAPICall(function:payload:webView:)`, without the download
      progress lines. */
  function HandleApiCall(agent: Option<Agent>, llm: Llm, call: ApiCall): (h: Handled)
    ensures call.fn == CreateTextSession && llm.make(call.payload).Success? ==>
              h == Handled(Some(Agent(call.payload)), ["success"])
    ensures call.fn == CreateTextSession && llm.make(call.payload).Failure? ==>
              h == Handled(agent, ["failure. error: " + llm.make(call.payload).error])
    ensures call.fn == Prompt ==>
              h.agent == agent && |h.logged| == 2 && h.logged[0] == "thinking..."
              && (agent.None? ==> h.logged[1] == "null")
              && (agent.Some? ==> h.logged[1] == llm.output(agent.value, call.payload))
  {
    match call.fn
    case CreateTextSession =>
      (match llm.make(call.payload)
       case Success(_) => Handled(Some(Agent(call.payload)), [SuccessText])
       case Failure(e) => Handled(agent, [FailurePrefix + e]))
    case Prompt =>
      var answer := if agent.Some? then llm.output(agent.value, call.payload) else NoAnswer;
      Handled(agent, [Thinking, answer])
  }

  /** A message arriving at the handler; one that does not decode changes
      nothing and logs nothing. */
  function Receive(agent: Option<Agent>, llm: Llm, body: JsValue): (h: Handled)
    ensures DecodeMessage(body).None? ==> h == Handled(agent, [])
    ensures DecodeMessage(body).Some? ==> h == HandleApiCall(agent, llm, DecodeMessage(body).value)
  {
    match DecodeMessage(body)
    case None => Handled(agent, [])
    case Some(call) => HandleApiCall(agent, llm, call)
  }

  /** What the page console shows for the texts a call logs: every logged
      text free of quotes, backslashes and carriage returns comes out of its
      `console.log` script unchanged, and so do the status lines. */
  lemma ConsoleShowsHandledTexts(agent: Option<Agent>, llm: Llm, call: ApiCall)
    ensures var h := HandleApiCall(agent, llm, call);
            forall i :: 0 <= i < |h.logged| && ConsoleLog.PlainText(h.logged[i]) ==>
              ConsoleLog.LoggedText(ConsoleLog.Script(h.logged[i])) == Some(h.logged[i])
    ensures var h := HandleApiCall(agent, llm, call);
            && (call.fn == CreateTextSession && llm.make(call.payload).Success? ==>
                  ConsoleLog.LoggedText(ConsoleLog.Script(h.logged[0])) == Some("success"))
            && (call.fn == Prompt ==>
                  ConsoleLog.LoggedText(ConsoleLog.Script(h.logged[0])) == Some("thinking..."))
            && (call.fn == Prompt && agent.None? ==>
                  ConsoleLog.LoggedText(ConsoleLog.Script(h.logged[1])) == Some("null"))
  {
    var h := HandleApiCall(agent, llm, call);
    forall i | 0 <= i < |h.logged| && ConsoleLog.PlainText(h.logged[i])
      ensures ConsoleLog.LoggedText(ConsoleLog.Script(h.logged[i])) == Some(h.logged[i])
    {
      ConsoleLog.ScriptLogsPlainText(h.logged[i]);
    }
    if call.fn == Prompt {
      StatusLineReachesConsole(Thinking);
      if agent.None? {
        StatusLineReachesConsole(NoAnswer);
      }
    } else if llm.make(call.payload).Success? {
      StatusLineReachesConsole(SuccessText);
    }
  }

  /** The fixed status lines need no escaping. */
  lemma StatusLineReachesConsole(line: string)
    requires line == SuccessText || line == Thinking || line == NoAnswer
    ensures ConsoleLog.LoggedText(ConsoleLog.Script(line)) == Some(line)
  {
    assert ConsoleLog.PlainText(line) by {
      if line == SuccessText {
        assert ConsoleLog.PlainText(SuccessText);
      } else if line == Thinking {
        assert ConsoleLog.PlainText(Thinking);
      } else {
        assert ConsoleLog.PlainText(NoAnswer);
      }
    }
    ConsoleLog.ScriptLogsPlainText(line);
  }

  /** Through the page script: creating a session and then prompting it
      answers with the session created from the first call's argument. */
  lemma SessionThenPrompt(llm: Llm, agent: Option<Agent>, systemPrompt: string, prompt: string)
    requires llm.make(systemPrompt).Success?
    ensures var created := Receive(agent, llm, InjectedMessage(CreateTextSession, JsString(systemPrompt)));
            var answered := Receive(created.agent, llm, InjectedMessage(Prompt, JsString(prompt)));
            created.logged == ["success"]
            && answered.logged == ["thinking...", llm.output(Agent(systemPrompt), prompt)]
  {
  }

  /** A prompt before any session logs "null". */
  lemma PromptWithoutSession(llm: Llm, prompt: string)
    ensures Receive(None, llm, InjectedMessage(Prompt, JsString(prompt))).logged == ["thinking...", "null"]
  {
  }
}
