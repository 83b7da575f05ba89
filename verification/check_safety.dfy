/** The serverless handler of api/check-safety.js: method routing, the
    input guard, the prompt, one call to the completion service, the fence
    cleaner, JSON.parse, and the success or fallback response. The remote
    call and JSON.parse are oracles passed in as functions. */
module CheckSafety {
  import opened Wrappers
  import opened Text
  import opened Json
  import Fences
  import opened Http

  /** `req.method` and `req.body.input` (None for `undefined`). */
  datatype Request = Request(httpMethod: string, input: Option<Json>)

  /** `res.status(..).end()` sends no body; `res.status(..).json(v)` sends v. */
  datatype Body = NoBody | JsonBody(value: Json)

  datatype Response = Response(status: int, body: Body)

  /** The parts of the outbound request that the handler decides. */
  datatype Completion = Completion(model: string, maxTokens: nat, apiVersion: string, prompt: string)

  /** What the remote call yields: the fetch promise rejects, or a reply
      arrives with an HTTP status and, when `response.json()` succeeds and
      `data.content[0].text` is a string, that text. */
  datatype RemoteOutcome =
    | FetchRejected
    | Answered(status: int, text: Option<string>)

  /** One run of the handler: the response, the completion request sent (at
      most one), and the text handed to JSON.parse (at most one). */
  datatype Exchange = Exchange(response: Response, call: Option<Completion>, parsed: Option<string>)

  const Model: string := "claude-sonnet-4-20250514"
  const MaxTokens: nat := 1000
  const ApiVersion: string := "2023-06-01"

  const FallbackReason: string :=
    "Unable to verify safety at this time. Please consult with a healthcare provider."

  const PromptHead: string := PromptIntro + "\""

  const PromptIntro: string :=
    "You are a G6PD deficiency safety expert. Analyze this food/medication for G6PD safety: "

  const PromptTail: string := "\"" + PromptInstructions

  const PromptInstructions: string :=
    "\n\nRespond ONLY with valid JSON in this exact format (no markdown, no backticks):\n"
    + "{\n"
    + "  \"item\": \"name of the item\",\n"
    + "  \"safety\": \"safe\" or \"unsafe\" or \"caution\",\n"
    + "  \"reason\": \"brief explanation\",\n"
    + "  \"alternatives\": [\"alternative 1\", \"alternative 2\"],\n"
    + "  \"severity\": \"low\" or \"medium\" or \"high\"\n"
    + "}\n\n"
    + "Consider these G6PD triggers: fava beans, mothballs (naphthalene), certain antibiotics "
    + "(sulfonamides, nitrofurantoin), antimalarials (primaquine), aspirin in high doses, "
    + "vitamin C supplements in high doses, menthol, henna."

  /** The instruction text: the input placed between double quotes inside a
      fixed template, verbatim and without escaping. */
  function Prompt(input: string): (p: string)
    ensures |p| == |PromptHead| + |input| + |PromptTail|
    ensures p[..|PromptHead|] == PromptHead
    ensures p[|PromptHead|..|PromptHead| + |input|] == input
    ensures p[|PromptHead| + |input|..] == PromptTail
    ensures OccursAt(p, "\"" + input + "\"", |PromptHead| - 1)
  {
    var p := PromptHead + input + PromptTail;
    var h := |PromptHead|;
    assert p[h - 1] == PromptHead[|PromptIntro|] == '"';
    assert p[h + |input|] == PromptTail[0] == '"';
    assert p[h - 1..h + |input| + 1] == [p[h - 1]] + p[h..h + |input|] + [p[h + |input|]];
    p
  }

  /** Reads the input back out of a prompt, if the text has the template's
      shape. */
  function PromptInput(p: string): Option<string> {
    if |p| >= |PromptHead| + |PromptTail|
       && p[..|PromptHead|] == PromptHead
       && p[|p| - |PromptTail|..] == PromptTail
    then Some(p[|PromptHead|..|p| - |PromptTail|])
    else None
  }

  /** Every input is recoverable from its prompt, whatever characters it
      holds (quotes included). */
  lemma PromptRoundTrip(input: string)
    ensures PromptInput(Prompt(input)) == Some(input)
  {
  }

  /** Distinct inputs give distinct prompts. */
  lemma PromptInjective(a: string, b: string)
    requires Prompt(a) == Prompt(b)
    ensures a == b
  {
    PromptRoundTrip(a);
    PromptRoundTrip(b);
  }

  /** The 500 body: a "caution" verdict naming the original input. */
  function ServerFallback(input: Json): Json {
    Verdict(input, JString("caution"), JString(FallbackReason), JArray([]), JString("medium"))
  }

  function ErrorBody(message: string): Json {
    JObject([("error", JString(message))])
  }

  /** The request the handler sends for an input whose text is `text`. */
  function CompletionFor(text: string): Completion {
    Completion(Model, MaxTokens, ApiVersion, Prompt(text))
  }

  /** The body of the `try`: any failure lands on the fallback; a parsed
      reply is returned with status 200 as it is. */
  function Respond(input: Json, outcome: RemoteOutcome, parse: string -> Option<Json>): (x: Exchange)
    ensures x.call == None
    ensures x.response.status == 200 || x.response == Response(500, JsonBody(ServerFallback(input)))
    ensures x.response.status == 200 <==> x.parsed.Some? && parse(x.parsed.value).Some?
    ensures x.response.status == 200 ==> x.response.body == JsonBody(parse(x.parsed.value).value)
    ensures x.parsed.Some? ==> !Fences.HasFence(x.parsed.value) && Trimmed(x.parsed.value)
    ensures x.parsed == if outcome.Answered? && IsOk(outcome.status) && outcome.text.Some?
                        then Some(Fences.Clean(outcome.text.value)) else None
  {
    var fallback := Response(500, JsonBody(ServerFallback(input)));
    match outcome
    case FetchRejected => Exchange(fallback, None, None)
    case Answered(status, text) =>
      if !IsOk(status) then Exchange(fallback, None, None)
      else match text
        case None => Exchange(fallback, None, None)
        case Some(t) =>
          var clean := Fences.Clean(t);
          match parse(clean)
          case None => Exchange(fallback, None, Some(clean))
          case Some(v) => Exchange(Response(200, JsonBody(v)), None, Some(clean))
  }

  /** The handler. */
  function Handle(req: Request, remote: Completion -> RemoteOutcome,
                  parse: string -> Option<Json>): (x: Exchange)
    ensures x.call.Some? <==> && req.httpMethod == "POST" && req.input.Some? && Truthy(req.input.value)
                              && ToJsString(req.input.value).Some?
    ensures x.call.Some? ==> x.call.value == CompletionFor(ToJsString(req.input.value).value)
    ensures x.parsed.Some? ==> x.call.Some?
    ensures x.response.status == 500 ==>
              req.input.Some? && x.response.body == JsonBody(ServerFallback(req.input.value))
  {
    if req.httpMethod == "OPTIONS" then
      Exchange(Response(200, NoBody), None, None)
    else if req.httpMethod != "POST" then
      Exchange(Response(405, JsonBody(ErrorBody("Method not allowed"))), None, None)
    else if req.input.None? || !Truthy(req.input.value) then
      Exchange(Response(400, JsonBody(ErrorBody("Input is required"))), None, None)
    else
      var input := req.input.value;
      match ToJsString(input)
      case None => Exchange(Response(500, JsonBody(ServerFallback(input))), None, None)
      case Some(text) =>
        var call := CompletionFor(text);
        var x := Respond(input, remote(call), parse);
        x.(call := Some(call))
  }

  /** A preflight request is answered 200 with no body, before any other
      check and without calling out. */
  lemma OptionsShortCircuits(input: Option<Json>, remote: Completion -> RemoteOutcome,
                             parse: string -> Option<Json>)
    ensures Handle(Request("OPTIONS", input), remote, parse)
         == Exchange(Response(200, NoBody), None, None)
  {
  }

  /** Every method but POST and OPTIONS is refused with 405. */
  lemma OtherMethodsRefused(m: string, input: Option<Json>, remote: Completion -> RemoteOutcome,
                            parse: string -> Option<Json>)
    requires m != "OPTIONS" && m != "POST"
    ensures Handle(Request(m, input), remote, parse)
         == Exchange(Response(405, JsonBody(ErrorBody("Method not allowed"))), None, None)
  {
  }

  /** A POST whose input is missing or falsy is refused with 400. */
  lemma FalsyInputRefused(input: Option<Json>, remote: Completion -> RemoteOutcome,
                          parse: string -> Option<Json>)
    requires input.None? || !Truthy(input.value)
    ensures Handle(Request("POST", input), remote, parse)
         == Exchange(Response(400, JsonBody(ErrorBody("Input is required"))), None, None)
  {
  }

  /** The server does not trim: a blank but non-empty string passes the
      guard and is sent to the model as it is. */
  lemma BlankInputReachesModel(s: string, remote: Completion -> RemoteOutcome,
                               parse: string -> Option<Json>)
    requires |s| > 0 && AllWhitespace(s)
    ensures Handle(Request("POST", Some(JString(s))), remote, parse).call == Some(CompletionFor(s))
  {
  }

  /** An input whose conversion to text throws (an object with its own
      "toString" member, or an array holding one) gets the 500 fallback
      before any call goes out. */
  lemma UnprintableInputFallsBack(input: Json, remote: Completion -> RemoteOutcome,
                                  parse: string -> Option<Json>)
    ensures Unprintable(input) ==>
              Handle(Request("POST", Some(input)), remote, parse)
              == Exchange(Response(500, JsonBody(ServerFallback(input))), None, None)
  {
  }

  /** A rejected fetch, a non-2xx status, an unreadable envelope, or text
      JSON.parse refuses: each gives the 500 fallback, and so does an input
      that cannot be written into the prompt. */
  lemma FailuresFallBack(input: Json, remote: Completion -> RemoteOutcome, parse: string -> Option<Json>)
    requires Truthy(input)
    ensures var t := ToJsString(input);
            (|| t.None?
             || var o := remote(CompletionFor(t.value));
                (|| o.FetchRejected?
                 || !IsOk(o.status)
                 || o.text.None?
                 || parse(Fences.Clean(o.text.value)).None?))
            ==> Handle(Request("POST", Some(input)), remote, parse).response
                == Response(500, JsonBody(ServerFallback(input)))
  {
    var t := ToJsString(input);
    if t.Some? {
      var o := remote(CompletionFor(t.value));
      var x := Respond(input, o, parse);
      assert Handle(Request("POST", Some(input)), remote, parse).response == x.response;
    }
  }

  /** The fallback verdict says "caution", never "safe". */
  lemma FallbackIsCaution(input: Json)
    ensures Get(ServerFallback(input), "safety") == Some(JString("caution"))
    ensures Get(ServerFallback(input), "safety") != Some(JString("safe"))
    ensures Get(ServerFallback(input), "item") == Some(input)
    ensures Get(ServerFallback(input), "reason") == Some(JString(FallbackReason))
    ensures Get(ServerFallback(input), "severity") == Some(JString("medium"))
  {
    VerdictFields(input, JString("caution"), JString(FallbackReason), JArray([]), JString("medium"));
    assert |"caution"| != |"safe"|;
  }

  /** Whatever JSON.parse returns for the cleaned reply is sent back with
      status 200 unchanged: fields and enumerations are not checked. */
  lemma ParsedReplyPassedThrough(input: Json, remote: Completion -> RemoteOutcome,
                                 parse: string -> Option<Json>)
    requires Truthy(input)
    ensures var t := ToJsString(input);
            t.Some? ==>
            var o := remote(CompletionFor(t.value));
            o.Answered? && IsOk(o.status) && o.text.Some? && parse(Fences.Clean(o.text.value)).Some?
            ==> Handle(Request("POST", Some(input)), remote, parse).response
                == Response(200, JsonBody(parse(Fences.Clean(o.text.value)).value))
  {
    var t := ToJsString(input);
    if t.Some? {
      var o := remote(CompletionFor(t.value));
      var x := Respond(input, o, parse);
      assert Handle(Request("POST", Some(input)), remote, parse).response == x.response;
    }
  }

  /** A verdict whose "safety" is none of the three documented values is
      accepted as it is, whatever the reply text and the parser. */
  lemma NoSchemaValidation(input: Json, status: int, text: string, v: Json,
                           parse: string -> Option<Json>)
    requires IsOk(status)
    requires parse(Fences.Clean(text)) == Some(v)
    requires Get(v, "safety") !in {Some(JString("safe")), Some(JString("unsafe")), Some(JString("caution"))}
    ensures Respond(input, Answered(status, Some(text)), parse).response == Response(200, JsonBody(v))
  {
  }

  /** A reply wrapped in a ```json block gets the same response as the bare
      reply, for every parser. */
  lemma FencedReplyAnsweredAlike(input: Json, status: int, p: string, parse: string -> Option<Json>)
    requires !Fences.HasFence(p)
    ensures Respond(input, Answered(status, Some(Fences.JsonFence + "\n" + p + "\n" + Fences.Fence)), parse)
         == Respond(input, Answered(status, Some(p)), parse)
  {
    Fences.CleanUnwrapsFence(p);
  }
}
