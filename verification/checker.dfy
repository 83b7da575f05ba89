/** The safety checker of src/App.jsx: `handleCheck` and the way a result
    is classified for display. The POST to the handler is an oracle. */
module Checker {
  import opened Wrappers
  import opened Text
  import opened Json
  import opened Http

  /** The checker's state: the text field, the spinner flag, and `result`
      (JNull while there is none). */
  datatype CheckerState = CheckerState(input: string, loading: bool, result: Json)

  /** What `fetch('/api/check-safety', ...)` yields: a rejected promise, or
      a status with the body `response.json()` reads (None when it throws). */
  datatype FetchReply = FetchFailed | Replied(status: int, body: Option<Json>)

  /** A click on "Check Safety": ignored, or run with the request body sent,
      the state while waiting, and the state afterwards. */
  datatype CheckRun = Skipped | Ran(sent: Json, waiting: CheckerState, after: CheckerState)

  const ClientReason: string := "Unable to verify safety. Please consult with a healthcare provider."

  /** The verdict the client shows when the request fails. */
  function ClientFallback(input: string): Json {
    Verdict(JString(input), JString("caution"), JString(ClientReason), JArray([]), JString("medium"))
  }

  /** `JSON.stringify({ input: input })`, before serialisation. */
  function RequestBody(input: string): Json {
    JObject([("input", JString(input))])
  }

  function HandleCheck(s: CheckerState, post: Json -> FetchReply): (r: CheckRun)
    ensures r.Skipped? <==> AllWhitespace(s.input)
    ensures r.Ran? ==> r.sent == RequestBody(s.input)
    ensures r.Ran? ==> r.waiting == s.(loading := true, result := JNull)
    ensures r.Ran? ==> !r.after.loading && r.after.input == s.input
    ensures r.Ran? ==> r.after.result == ClientFallback(s.input)
                       || (post(r.sent).Replied? && IsOk(post(r.sent).status)
                           && post(r.sent).body == Some(r.after.result))
  {
    TrimEmptyIffBlank(s.input);
    if Trim(s.input) == [] then Skipped
    else
      var waiting := s.(loading := true, result := JNull);
      var sent := RequestBody(s.input);
      var result :=
        match post(sent)
        case FetchFailed => ClientFallback(s.input)
        case Replied(status, body) =>
          if !IsOk(status) || body.None? then ClientFallback(s.input)
          else body.value;
      Ran(sent, waiting, waiting.(loading := false, result := result))
  }

  /** A non-2xx status, a rejected fetch or an unreadable body all end in
      the client's own fallback, whatever body the server sent. */
  lemma FailedCheckShowsClientFallback(s: CheckerState, post: Json -> FetchReply)
    requires !AllWhitespace(s.input)
    requires var reply := post(RequestBody(s.input));
             reply.FetchFailed? || !IsOk(reply.status) || reply.body.None?
    ensures HandleCheck(s, post).after.result == ClientFallback(s.input)
  {
  }

  /** A 2xx reply with a readable body is shown as it is. */
  lemma OkCheckShowsBody(s: CheckerState, post: Json -> FetchReply, status: int, v: Json)
    requires !AllWhitespace(s.input)
    requires IsOk(status) && post(RequestBody(s.input)) == Replied(status, Some(v))
    ensures HandleCheck(s, post).after.result == v
  {
  }

  /** How a result is drawn: green, red, or yellow. */
  datatype Style = SafeStyle | UnsafeStyle | CautionStyle

  /** `result && (...)`: nothing is drawn for a falsy result; otherwise
      `result.safety` picks the style, with every value other than the exact
      strings "safe" and "unsafe" drawn as caution. */
  function Display(result: Json): (d: Option<Style>)
    ensures d.None? <==> !Truthy(result)
  {
    if !Truthy(result) then None
    else
      var safety := Get(result, "safety");
      if safety == Some(JString("safe")) then Some(SafeStyle)
      else if safety == Some(JString("unsafe")) then Some(UnsafeStyle)
      else Some(CautionStyle)
  }

  /** The classification is total on drawn results, and caution is the
      default: out-of-enumeration strings, other casings, non-strings and a
      missing field all draw as caution. */
  lemma DisplayCautionByDefault(result: Json)
    requires Truthy(result)
    ensures Display(result).Some?
    ensures Display(result) == Some(SafeStyle) <==> Get(result, "safety") == Some(JString("safe"))
    ensures Display(result) == Some(UnsafeStyle) <==> Get(result, "safety") == Some(JString("unsafe"))
    ensures Display(result) == Some(CautionStyle) <==>
              Get(result, "safety") != Some(JString("safe")) && Get(result, "safety") != Some(JString("unsafe"))
  {
  }

  /** The client fallback is drawn as caution. */
  lemma ClientFallbackDrawnAsCaution(input: string)
    ensures Display(ClientFallback(input)) == Some(CautionStyle)
  {
    VerdictFields(JString(input), JString("caution"), JString(ClientReason), JArray([]), JString("medium"));
    assert |"caution"| != |"safe"| && |"caution"| != |"unsafe"|;
  }
}
