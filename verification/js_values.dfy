/** The values a page script can hand to native code: a message body posted
    through `window.webkit.messageHandlers`, or the completion value of
    `evaluateJavaScript`. Objects arrive as string-keyed dictionaries. */
module JsValues {
  import opened Wrappers

  datatype JsValue =
    | JsString(text: string)
    | JsNumber(number: real)
    | JsBool(flag: bool)
    | JsNull
    | JsArray(items: seq<JsValue>)
    | JsObject(fields: map<string, JsValue>)

  /** `body[key] as? String` on `body as? [String: Any]`: the text under
      `key` when `body` is an object holding a string there. */
  function StringField(body: JsValue, key: string): (r: Option<string>)
    ensures r.Some? <==> body.JsObject? && key in body.fields && body.fields[key].JsString?
    ensures r.Some? ==> body.fields[key] == JsString(r.value)
  {
    if body.JsObject? && key in body.fields && body.fields[key].JsString? then
      Some(body.fields[key].text)
    else
      None
  }
}
