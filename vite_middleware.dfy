/** The `/api/fortune` middleware of the development server: an ordered chain of early
    replies over the request verb, the parsed body, the API key (from the environment or
    the `.dev.vars` file) and the answer of the model service. Every reply except the
    preflight one carries only a JSON content type. */
module ViteFortune {
  import opened JsValues
  import opened FortuneCommon
  import DevVars

  const KeyName: string := "OPENAI_API_KEY"

  /** The headers of the preflight reply. */
  const PreflightHeaders: seq<(string, string)> :=
    [("Access-Control-Allow-Origin", "*"), ("Access-Control-Allow-Methods", "POST"),
     ("Access-Control-Allow-Headers", "Content-Type")]

  const MethodNotAllowedMessage: string := "Method not allowed"
  const KeyMissingMessage: string := "OPENAI_API_KEY가 설정되지 않았습니다. .dev.vars 파일을 확인하세요."
  const UpstreamFailedMessage: string := "AI 서비스에 문제가 발생했습니다."

  /** `process.env.OPENAI_API_KEY || devVars.OPENAI_API_KEY`, with `None` for a falsy
      result: a non-empty environment value wins, then a non-empty `.dev.vars` value. */
  function ResolveApiKey(env: Option<string>, devVars: map<string, string>): (key: Option<string>)
    ensures key.Some? ==> key.value != ""
    ensures key.Some? <==> (env.Some? && env.value != "") || (KeyName in devVars && devVars[KeyName] != "")
    ensures env.Some? && env.value != "" ==> key == env
    ensures (env.None? || env.value == "") && key.Some? ==> key.value == devVars[KeyName]
  {
    if env.Some? && env.value != "" then env
    else if KeyName in devVars && devVars[KeyName] != "" then Some(devVars[KeyName])
    else None
  }

  /** Without the environment variable, the last `OPENAI_API_KEY=...` line of `.dev.vars`
      supplies the key. */
  lemma DevVarsSupplyKey(content: string, k: nat, value: string)
    requires k < |DevVars.Lines(content)|
    requires DevVars.ParseLine(DevVars.Lines(content)[k]) == Some((KeyName, value)) && value != ""
    requires forall j :: k < j < |DevVars.Lines(content)| ==> !DevVars.DefinesKey(DevVars.Lines(content)[j], KeyName)
    ensures ResolveApiKey(None, DevVars.DevVarsOf(Some(content))) == Some(value)
  {
    DevVars.LastDefinitionWins(DevVars.Lines(content), k, KeyName, value);
  }

  function JsonReply(status: int, body: Body): Reply
  {
    Reply(status, [JsonContentType], body)
  }

  /** The replies after the upstream request: 502 for a failed status, 502 for an answer
      without text, 200 with the text, and 500 when `fetch` or `json()` throws. */
  function AfterRequest(upstream: Upstream): Reply
  {
    match upstream
    case FetchFailed => JsonReply(500, ErrorBody(ServerErrorMessage))
    case NotOk(_) => JsonReply(502, ErrorBody(UpstreamFailedMessage))
    case BadJson => JsonReply(500, ErrorBody(ServerErrorMessage))
    case Answered(data) =>
      var text := OutputText(data);
      if text == "" then JsonReply(502, ErrorBody(NoAnswerMessage))
      else JsonReply(200, ContentBody(text))
  }

  /** The middleware for one request. It always replies (everything that can throw sits
      inside its `try`), with one of six statuses, and only the 200 reply has content and
      only the 204 reply no body. A body that is not JSON, or the JSON `null` (which
      cannot be destructured), throws inside the `try` and gets the 500 reply. */
  function HandleFortune(verb: string, body: RequestBody, env: Option<string>,
                         devVars: map<string, string>, upstream: Upstream): (o: Outcome)
    ensures o.Replied? && o.reply.status in {200, 204, 400, 405, 500, 502}
    ensures o.reply.status == 200 <==> o.reply.body.ContentBody?
    ensures o.reply.status == 204 <==> o.reply.body.NoBody?
  {
    if verb == "OPTIONS" then Replied(Reply(204, PreflightHeaders, NoBody), None)
    else if verb != "POST" then Replied(JsonReply(405, ErrorBody(MethodNotAllowedMessage)), None)
    else if !body.Fields? then Replied(JsonReply(500, ErrorBody(ServerErrorMessage)), None)
    else if !HasDate(body) then Replied(JsonReply(400, ErrorBody(DateRequiredMessage)), None)
    else
      var key := ResolveApiKey(env, devVars);
      if key.None? then
        Replied(JsonReply(500, ErrorBody(KeyMissingMessage)), None)
      else
        Replied(AfterRequest(upstream), Some(UpstreamRequest(key.value, Prompt(body))))
  }

  /** The model service is called exactly for a POST whose body has a date and when a key
      is found, with that key and the prompt built from the body. */
  lemma RequestSentOnlyWhenReady(verb: string, body: RequestBody, env: Option<string>,
                                 devVars: map<string, string>, upstream: Upstream)
    ensures var o := HandleFortune(verb, body, env, devVars, upstream);
            o.Replied?
            && (o.request.Some? <==>
                  verb == "POST" && body.Fields? && HasDate(body) && ResolveApiKey(env, devVars).Some?)
            && (o.request.Some? ==>
                  o.request.value == UpstreamRequest(ResolveApiKey(env, devVars).value, Prompt(body)))
  {
  }

  /** The statuses decided before the model service is called: 204 for OPTIONS, 405 for
      any other method but POST, 400 for a missing date, which is checked before the key.
      Only the preflight reply carries CORS headers; the 405 and 400 replies carry their
      fixed messages. */
  lemma EarlyStatuses(verb: string, body: RequestBody, env: Option<string>,
                      devVars: map<string, string>, upstream: Upstream)
    ensures var o := HandleFortune(verb, body, env, devVars, upstream);
            o.Replied?
            && (o.reply.status == 204 <==> verb == "OPTIONS")
            && (o.reply.status == 405 <==> verb != "OPTIONS" && verb != "POST")
            && (o.reply.status == 400 <==> verb == "POST" && body.Fields? && !HasDate(body))
            && o.reply.headers == (if o.reply.status == 204 then PreflightHeaders else [JsonContentType])
            && (o.reply.status == 405 ==> o.reply.body == ErrorBody(MethodNotAllowedMessage))
            && (o.reply.status == 400 ==> o.reply.body == ErrorBody(DateRequiredMessage))
  {
    var o := HandleFortune(verb, body, env, devVars, upstream);
    if verb == "OPTIONS" {
      assert o.reply == Reply(204, PreflightHeaders, NoBody);
    } else if verb != "POST" {
      assert o.reply == JsonReply(405, ErrorBody(MethodNotAllowedMessage));
    } else if !body.Fields? || !HasDate(body) || ResolveApiKey(env, devVars).None? {
      assert o.reply.status in {400, 500} && o.reply.headers == [JsonContentType];
    } else {
      var r := AfterRequest(upstream);
      assert o.reply == r;
      assert r.status in {200, 500, 502} && r.headers == [JsonContentType];
    }
  }

  /** 500 for everything that throws inside the `try` (a body that is not JSON or is
      `null`, a failed `fetch`, an answer that is not JSON) and for a missing key. The
      missing key has its own message pointing at `.dev.vars`; every other 500 carries the
      generic server-error message. */
  lemma ServerErrorStatus(verb: string, body: RequestBody, env: Option<string>,
                          devVars: map<string, string>, upstream: Upstream)
    ensures var o := HandleFortune(verb, body, env, devVars, upstream);
            o.reply.status == 500 <==>
              verb == "POST"
              && (!body.Fields?
                  || (HasDate(body) && ResolveApiKey(env, devVars).None?)
                  || (o.request.Some? && (upstream.FetchFailed? || upstream.BadJson?)))
    ensures var o := HandleFortune(verb, body, env, devVars, upstream);
            (o.reply.body == ErrorBody(KeyMissingMessage) <==>
               verb == "POST" && body.Fields? && HasDate(body) && ResolveApiKey(env, devVars).None?)
            && (o.reply.status == 500 && o.reply.body != ErrorBody(KeyMissingMessage) ==>
                  o.reply.body == ErrorBody(ServerErrorMessage))
  {
  }

  /** Once the model service is called: 502 for a failed status or an answer without text,
      otherwise 200 with the collected text. The two 502 replies carry different messages. */
  lemma UpstreamStatuses(verb: string, body: RequestBody, env: Option<string>,
                         devVars: map<string, string>, upstream: Upstream)
    ensures var o := HandleFortune(verb, body, env, devVars, upstream);
            (o.reply.status == 502 <==>
               o.request.Some? && (upstream.NotOk? || (upstream.Answered? && OutputText(upstream.data) == "")))
            && (o.reply.status == 200 <==>
                  o.request.Some? && upstream.Answered? && OutputText(upstream.data) != "")
            && (o.reply.status == 200 ==> o.reply.body == ContentBody(OutputText(upstream.data)))
    ensures var o := HandleFortune(verb, body, env, devVars, upstream);
            (o.reply.body == ErrorBody(UpstreamFailedMessage) <==> o.request.Some? && upstream.NotOk?)
            && (o.reply.body == ErrorBody(NoAnswerMessage) <==>
                  o.request.Some? && upstream.Answered? && OutputText(upstream.data) == "")
  {
  }

  /** The upstream error text never reaches the reply. */
  lemma ErrorTextNotForwarded(verb: string, body: RequestBody, env: Option<string>,
                              devVars: map<string, string>, first: string, second: string)
    ensures HandleFortune(verb, body, env, devVars, NotOk(first))
            == HandleFortune(verb, body, env, devVars, NotOk(second))
  {
  }
}
