/** Registration: the request raises an error carrying the JSON text of a non-ok
    answer; a successful answer may still report success or an error; every error
    becomes one message for the user. The toasts, the stored return address, the
    route change and the cache invalidation are the recorded effects. */
module Register {
  import opened Common

  /** A parsed JSON value. An array is kept only as its `String(...)` text, since none
      of its elements is looked at. */
  datatype JsValue =
    | JNull
    | JBool(b: bool)
    | JNum(n: int)
    | JStr(s: string)
    | JArr(text: string)
    | JObj(fields: map<string, JsValue>)

  predicate Truthy(v: JsValue) {
    match v
    case JNull => false
    case JBool(b) => b
    case JNum(n) => n != 0
    case JStr(s) => s != ""
    case JArr(_) => true
    case JObj(_) => true
  }

  /** The keys `key in v` finds: an object's own keys; an array has none of the names
      looked up here. */
  function Fields(v: JsValue): map<string, JsValue> {
    if v.JObj? then v.fields else map[]
  }

  /** `'key' in v && v.key`. */
  predicate Has(v: JsValue, key: string) {
    key in Fields(v) && Truthy(Fields(v)[key])
  }

  function IntToString(n: int): (s: string)
    ensures s != ""
  {
    if n < 0 then "-" + NatToString(-n) else NatToString(n)
  }

  /** `String(v)`. */
  function StringOf(v: JsValue): string {
    match v
    case JNull => "null"
    case JBool(b) => if b then "true" else "false"
    case JNum(n) => IntToString(n)
    case JStr(s) => s
    case JArr(text) => text
    case JObj(_) => "[object Object]"
  }

  // ----- the request -----

  /** The server's answer: whether it is ok, its body parsed (nothing when the body is
      not JSON), its body as JSON text, and the message of the `SyntaxError` that
      `response.json()` rejects with when the body is not JSON. The engine words that
      message; it is taken not to be JSON text itself. */
  datatype Response = Response(ok: bool, body: Option<JsValue>, text: string, parseError: string)

  /** The error the mutation raises: its message and what `JSON.parse` makes of that
      message (nothing when it is not JSON). */
  datatype Thrown = Thrown(message: string, parsed: Option<JsValue>)

  datatype Outcome = Data(data: JsValue) | Raised(error: Thrown)

  /** `mutationFn`: a body that is not JSON makes `response.json()` reject, ok or not;
      otherwise a non-ok answer raises an error whose message is the body's JSON text,
      which parses back to the body, and an ok answer yields its body. */
  function MutationFn(response: Response): (r: Outcome)
    ensures r.Raised? <==> !response.ok || response.body.None?
    ensures response.body.None? ==> r == Raised(Thrown(response.parseError, None))
    ensures !response.ok && response.body.Some? ==> r == Raised(Thrown(response.text, response.body))
    ensures r.Data? ==> response.body == Some(r.data)
  {
    match response.body
    case None => Raised(Thrown(response.parseError, None))
    case Some(body) =>
      if !response.ok then Raised(Thrown(response.text, Some(body)))
      else Data(body)
  }

  // ----- success -----

  const DefaultSuccess: string := "Registration successful! Please check your email to verify your account."
  const VerifyRoute: string := "/verify-email-sent"

  datatype Toast = Success(text: string) | Failure(text: string)

  datatype SuccessEffects = SuccessEffects(
    toast: Option<Toast>, storedReturnUrl: Option<string>, pushed: Option<string>,
    invalidatedCurrent: bool)

  /** `onSuccess`. */
  function OnSuccess(data: JsValue, returnUrl: Option<string>): (e: SuccessEffects)
    ensures e.invalidatedCurrent
    ensures e.pushed.Some? <==> Has(data, "success")
    ensures e.pushed.Some? ==> e.pushed.value == VerifyRoute
    ensures e.storedReturnUrl.Some? <==> Has(data, "success") && returnUrl.Some? && returnUrl.value != ""
    ensures e.storedReturnUrl.Some? ==> e.storedReturnUrl == returnUrl
    ensures Has(data, "success") ==> e.toast.Some? && e.toast.value.Success?
    ensures Has(data, "success") && Has(data, "message") ==> e.toast == Some(Success(StringOf(Fields(data)["message"])))
    ensures Has(data, "success") && !Has(data, "message") ==> e.toast == Some(Success(DefaultSuccess))
    ensures !Has(data, "success") && Has(data, "error") ==> e.toast == Some(Failure(StringOf(Fields(data)["error"])))
    ensures e.toast.None? <==> !Has(data, "success") && !Has(data, "error")
  {
    if Has(data, "success") then
      var text := if Has(data, "message") then StringOf(Fields(data)["message"]) else DefaultSuccess;
      var stored := if returnUrl.Some? && returnUrl.value != "" then returnUrl else None;
      SuccessEffects(Some(Success(text)), stored, Some(VerifyRoute), true)
    else if Has(data, "error") then
      SuccessEffects(Some(Failure(StringOf(Fields(data)["error"]))), None, None, true)
    else SuccessEffects(None, None, None, true)
  }

  // ----- errors -----

  const GenericFailure: string := "Failed to sign up. Please try again."
  const SmtpFailure: string := "Account created but verification email could not be sent. Please contact support."

  /** The `catch` branch: the raw message, unless it is empty or an object's default
      text. */
  function RawOrGeneric(message: string): (r: string)
    ensures r != ""
    ensures r == message || r == GenericFailure
    ensures r == message <==> message != "" && message != "[object Object]"
  {
    if message != "" && message != "[object Object]" then message else GenericFailure
  }

  /** `key in v` throws for anything but an object or an array. */
  predicate InThrows(v: JsValue) {
    !v.JObj? && !v.JArr?
  }

  /** The `onError` message as written: the string test comes after three `in` tests,
      each of which throws when the parsed value is a string. */
  function ErrorTextAsWritten(error: Thrown): string {
    match error.parsed
    case None => RawOrGeneric(error.message)
    case Some(v) =>
      if InThrows(v) then RawOrGeneric(error.message)
      else if Has(v, "smtpError") then SmtpFailure
      else if Has(v, "error") then StringOf(Fields(v)["error"])
      else if Has(v, "message") then StringOf(Fields(v)["message"])
      else if v.JStr? then StringOf(v)
      else GenericFailure
  }

  /** The `onError` message with the string test made before any `in` test, so that a
      plain string answer is shown as it is. */
  function ErrorText(error: Thrown): (r: string)
    ensures error.parsed.None? ==> r == RawOrGeneric(error.message)
    ensures error.parsed.Some? && error.parsed.value.JStr? ==> r == error.parsed.value.s
    ensures error.parsed.Some? && !InThrows(error.parsed.value) ==> r == ErrorTextAsWritten(error)
    ensures error.parsed.Some? && InThrows(error.parsed.value) && !error.parsed.value.JStr? ==> r == RawOrGeneric(error.message)
  {
    match error.parsed
    case None => RawOrGeneric(error.message)
    case Some(v) =>
      if v.JStr? then v.s
      else if InThrows(v) then RawOrGeneric(error.message)
      else if Has(v, "smtpError") then SmtpFailure
      else if Has(v, "error") then StringOf(Fields(v)["error"])
      else if Has(v, "message") then StringOf(Fields(v)["message"])
      else GenericFailure
  }

  /** For an object the message follows the order smtpError, error, message, then the
      generic text. */
  lemma ErrorPrecedence(message: string, fields: map<string, JsValue>)
    ensures var v := JObj(fields);
      var r := ErrorText(Thrown(message, Some(v)));
      && (Has(v, "smtpError") ==> r == SmtpFailure)
      && (!Has(v, "smtpError") && Has(v, "error") ==> r == StringOf(fields["error"]))
      && (!Has(v, "smtpError") && !Has(v, "error") && Has(v, "message") ==> r == StringOf(fields["message"]))
      && (!Has(v, "smtpError") && !Has(v, "error") && !Has(v, "message") ==> r == GenericFailure)
  {
  }

  /** As written, a plain string answer never reaches its own branch: the message shown
      is the raw JSON text. */
  lemma StringAnswerShowsRawText(message: string, s: string)
    ensures ErrorTextAsWritten(Thrown(message, Some(JStr(s)))) == RawOrGeneric(message)
  {
  }

  /** The answer `"Email taken"` arrives as the text `"Email taken"` in quotes; as
      written the quotes are shown, while the string branch means to show the bare
      text. */
  lemma QuotedStringAnswer()
    ensures var e := Thrown("\"Email taken\"", Some(JStr("Email taken")));
      && ErrorTextAsWritten(e) == "\"Email taken\""
      && ErrorText(e) == "Email taken"
      && ErrorTextAsWritten(e) != ErrorText(e)
  {
    var e := Thrown("\"Email taken\"", Some(JStr("Email taken")));
    assert e.message != "[object Object]";
    assert e.message[0] == '"' && "Email taken"[0] == 'E';
  }

  /** A rejected registration whose body names an error (and no mail failure) shows
      that error. */
  lemma ServerErrorShown(text: string, parseError: string, fields: map<string, JsValue>)
    requires "error" in fields && Truthy(fields["error"])
    requires !Has(JObj(fields), "smtpError")
    ensures var o := MutationFn(Response(false, Some(JObj(fields)), text, parseError));
      o.Raised? && ErrorText(o.error) == StringOf(fields["error"])
  {
  }

  /** A body that is not JSON, say a plain-text server error, raises the parse error;
      `JSON.parse` of its message fails too, so the catch shows that message. */
  lemma NonJsonAnswerShowsParseError(ok: bool, text: string, parseError: string)
    requires parseError != "" && parseError != "[object Object]"
    ensures var o := MutationFn(Response(ok, None, text, parseError));
      && o.Raised?
      && ErrorTextAsWritten(o.error) == parseError
      && ErrorText(o.error) == parseError
  {
  }
}
