/** The older `WindowAIHelper` under `WindowAI/`: it switches on the
    `function` string itself and reads a different key per function, and it
    keeps its session in an `LLMAgentBox`. */
module LegacyWindowAIHelper {
  import opened Wrappers
  import opened JsValues
  import WindowAIHelper

  // ------------------------------------------------------ agent box

  /** A session and whether `stop()` has been called on it. */
  datatype BoxedAgent = BoxedAgent(systemPrompt: string, stopped: bool)

  datatype LLMAgentBox = LLMAgentBox(agent: Option<BoxedAgent>)

  /** Creating a `WindowAILLMAgent` succeeds or throws an error with the
      given description; `output` is an agent's answer to a prompt. */
  datatype Llm = Llm(make: string -> Result<(), string>, output: (BoxedAgent, string) -> string)

  /** The box after `makeLLMAgent`, and the error it threw if any. */
  datatype Made = Made(box: LLMAgentBox, error: Option<string>)

  function Stop(agent: Option<BoxedAgent>): (r: Option<BoxedAgent>)
    ensures agent.None? <==> r.None?
    ensures r.Some? ==> r.value.stopped && r.value.systemPrompt == agent.value.systemPrompt
  {
    match agent
    case None => None
    case Some(a) => Some(a.(stopped := true))
  }

  /** `makeLLMAgent(systemPrompt:updateCallback:)`: the previous agent is
      stopped first; if creation then throws, the box still holds it,
      stopped. */
  function MakeLLMAgent(box: LLMAgentBox, llm: Llm, systemPrompt: string): (m: Made)
    ensures llm.make(systemPrompt).Success? ==>
              m == Made(LLMAgentBox(Some(BoxedAgent(systemPrompt, false))), None)
    ensures llm.make(systemPrompt).Failure? ==>
              m.error == Some(llm.make(systemPrompt).error)
              && (box.agent.None? ==> m.box.agent.None?)
              && (box.agent.Some? ==> m.box.agent == Some(box.agent.value.(stopped := true)))
  {
    var stopped := LLMAgentBox(Stop(box.agent));
    match llm.make(systemPrompt)
    case Success(_) => Made(stopped.(agent := Some(BoxedAgent(systemPrompt, false))), None)
    case Failure(e) => Made(stopped, Some(e))
  }

  /** No agent is left running after a creation attempt except a newly
      created one. */
  lemma MakeLeavesNoOldAgentRunning(box: LLMAgentBox, llm: Llm, systemPrompt: string)
    ensures var m := MakeLLMAgent(box, llm, systemPrompt);
            m.box.agent.Some? && !m.box.agent.value.stopped ==>
              m.error.None? && m.box.agent.value.systemPrompt == systemPrompt
  {
  }

  /** `process(prompt:)`: `nil` exactly when the box is empty. */
  function Process(box: LLMAgentBox, llm: Llm, prompt: string): (answer: Option<string>)
    ensures answer.None? <==> box.agent.None?
    ensures answer.Some? ==> answer.value == llm.output(box.agent.value, prompt)
  {
    match box.agent
    case None => None
    case Some(a) => Some(llm.output(a, prompt))
  }

  /** After a successful creation, prompts are answered by the agent just
      made, with the system prompt it was made with. */
  lemma MadeAgentAnswers(box: LLMAgentBox, llm: Llm, systemPrompt: string, prompt: string)
    requires llm.make(systemPrompt).Success?
    ensures Process(MakeLLMAgent(box, llm, systemPrompt).box, llm, prompt)
            == Some(llm.output(BoxedAgent(systemPrompt, false), prompt))
  {
  }

  /** A failed creation leaves the box answering as the previous agent did,
      now stopped, or not at all when the box was empty. */
  lemma FailedMakeAnswers(box: LLMAgentBox, llm: Llm, systemPrompt: string, prompt: string)
    requires llm.make(systemPrompt).Failure?
    ensures var answer := Process(MakeLLMAgent(box, llm, systemPrompt).box, llm, prompt);
            && (box.agent.None? ==> answer.None?)
            && (box.agent.Some? ==> answer == Some(llm.output(box.agent.value.(stopped := true), prompt)))
  {
  }

  // ------------------------------------------------------- dispatch

  /** The calls this variant acts on, each with the key it was read from. */
  datatype LegacyCall = CreateTextSession(systemPrompt: string) | Prompt(prompt: string)

  /** The checks in `userContentController(_:didReceiveScriptMessage:)`:
      `createTextSession` reads `systemPrompt`, `prompt` reads `payload`,
      and any other function is ignored. */
  function DecodeMessage(body: JsValue): (call: Option<LegacyCall>)
    ensures StringField(body, "function") == Some("createTextSession") ==>
              (call.Some? <==> StringField(body, "systemPrompt").Some?)
              && (call.Some? ==> call.value == CreateTextSession(StringField(body, "systemPrompt").value))
    ensures StringField(body, "function") == Some("prompt") ==>
              (call.Some? <==> StringField(body, "payload").Some?)
              && (call.Some? ==> call.value == Prompt(StringField(body, "payload").value))
    ensures (StringField(body, "function") != Some("createTextSession")
             && StringField(body, "function") != Some("prompt")) ==> call.None?
  {
    var name :- StringField(body, "function");
    if name == WindowAIHelper.Function.CreateTextSession.RawValue() then
      var systemPrompt :- StringField(body, "systemPrompt");
      Some(CreateTextSession(systemPrompt))
    else if name == WindowAIHelper.Function.Prompt.RawValue() then
      var prompt :- StringField(body, "payload");
      Some(Prompt(prompt))
    else
      None
  }

  datatype Handled = Handled(box: LLMAgentBox, logged: seq<string>)

  /** One message: the new box and the texts logged. Unlike the newer
      variant, a prompt logs only the answer. */
  function Receive(box: LLMAgentBox, llm: Llm, body: JsValue): (h: Handled)
    ensures DecodeMessage(body).None? ==> h == Handled(box, [])
    ensures DecodeMessage(body).Some? && DecodeMessage(body).value.CreateTextSession? ==>
              var m := MakeLLMAgent(box, llm, DecodeMessage(body).value.systemPrompt);
              h.box == m.box
              && (m.error.None? ==> h.logged == ["success"])
              && (m.error.Some? ==> h.logged == ["failure. error: " + m.error.value])
    ensures DecodeMessage(body).Some? && DecodeMessage(body).value.Prompt? ==>
              h.box == box
              && h.logged == [Process(box, llm, DecodeMessage(body).value.prompt).GetOr("null")]
  {
    match DecodeMessage(body)
    case None => Handled(box, [])
    case Some(CreateTextSession(systemPrompt)) =>
      var m := MakeLLMAgent(box, llm, systemPrompt);
      var result := match m.error
        case None => WindowAIHelper.SuccessText
        case Some(e) => WindowAIHelper.FailurePrefix + e;
      Handled(m.box, [result])
    case Some(Prompt(prompt)) =>
      Handled(box, [Process(box, llm, prompt).GetOr(WindowAIHelper.NoAnswer)])
  }

  /** A prompt with an empty box logs "null". */
  lemma PromptWithoutAgentLogsNull(llm: Llm, body: JsValue)
    requires DecodeMessage(body).Some? && DecodeMessage(body).value.Prompt?
    ensures Receive(LLMAgentBox(None), llm, body).logged == ["null"]
  {
  }

  /** The injected `window.ai.createTextSession(prompt)` posts its argument
      under `payload`, which this variant does not read: the message is
      dropped, no session is created and nothing is logged. */
  lemma LegacyIgnoresInjectedSession(box: LLMAgentBox, llm: Llm, systemPrompt: string)
    ensures DecodeMessage(WindowAIHelper.InjectedMessage(WindowAIHelper.Function.CreateTextSession, JsString(systemPrompt))).None?
    ensures Receive(box, llm, WindowAIHelper.InjectedMessage(WindowAIHelper.Function.CreateTextSession, JsString(systemPrompt)))
            == Handled(box, [])
  {
  }
}
