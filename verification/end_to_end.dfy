/** The checker page talking to the handler: the client's POST is answered
    by `CheckSafety.Handle`, and the response body reaches the client as the
    value `res.json` sent (serialisation is taken to round-trip). */
module EndToEnd {
  import opened Wrappers
  import opened Text
  import opened Json
  import CheckSafety
  import Checker
  import Fences
  import Http

  /** The reply the client's fetch sees from the handler. */
  function ServerReply(remote: CheckSafety.Completion -> CheckSafety.RemoteOutcome,
                       parse: string -> Option<Json>): Json -> Checker.FetchReply
  {
    (body: Json) =>
      var x := CheckSafety.Handle(CheckSafety.Request("POST", Get(body, "input")), remote, parse);
      Checker.Replied(x.response.status,
                      if x.response.body.JsonBody? then Some(x.response.body.value) else None)
  }

  lemma RequestBodyInput(input: string)
    ensures Get(Checker.RequestBody(input), "input") == Some(JString(input))
  {
  }

  /** When the handler falls back, the user sees the client's fallback (its
      reason, not the server's), because the fallback travels with status
      500, which the client treats as a failed request. */
  lemma ServerFallbackNeverShown(s: Checker.CheckerState,
                                 remote: CheckSafety.Completion -> CheckSafety.RemoteOutcome,
                                 parse: string -> Option<Json>)
    requires !AllWhitespace(s.input)
    requires var o := remote(CheckSafety.CompletionFor(s.input));
             || o.FetchRejected?
             || !Http.IsOk(o.status)
             || o.text.None?
             || parse(Fences.Clean(o.text.value)).None?
    ensures Checker.HandleCheck(s, ServerReply(remote, parse)).after.result == Checker.ClientFallback(s.input)
    ensures Checker.Display(Checker.HandleCheck(s, ServerReply(remote, parse)).after.result)
         == Some(Checker.CautionStyle)
  {
    RequestBodyInput(s.input);
    var post := ServerReply(remote, parse);
    assert |s.input| > 0;
    CheckSafety.FailuresFallBack(JString(s.input), remote, parse);
    var reply := post(Checker.RequestBody(s.input));
    assert reply.status == 500;
    Checker.FailedCheckShowsClientFallback(s, post);
    Checker.ClientFallbackDrawnAsCaution(s.input);
  }

  /** The two fallbacks differ in their reason, so what the user sees is
      never the server's fallback. */
  lemma FallbacksDiffer(input: string)
    ensures Checker.ClientFallback(input) != CheckSafety.ServerFallback(JString(input))
  {
    assert |Checker.ClientReason| != |CheckSafety.FallbackReason|;
    VerdictFields(JString(input), JString("caution"), JString(Checker.ClientReason), JArray([]), JString("medium"));
    CheckSafety.FallbackIsCaution(JString(input));
  }

  /** When the model's cleaned reply parses, the user is shown exactly the
      parsed value. */
  lemma ParsedReplyShown(s: Checker.CheckerState,
                         remote: CheckSafety.Completion -> CheckSafety.RemoteOutcome,
                         parse: string -> Option<Json>, status: int, text: string, v: Json)
    requires !AllWhitespace(s.input)
    requires remote(CheckSafety.CompletionFor(s.input)) == CheckSafety.Answered(status, Some(text))
    requires Http.IsOk(status)
    requires parse(Fences.Clean(text)) == Some(v)
    ensures Checker.HandleCheck(s, ServerReply(remote, parse)).after.result == v
  {
    RequestBodyInput(s.input);
    var post := ServerReply(remote, parse);
    assert |s.input| > 0;
    CheckSafety.ParsedReplyPassedThrough(JString(s.input), remote, parse);
    Checker.OkCheckShowsBody(s, post, 200, v);
  }
}
