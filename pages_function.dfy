/** `onRequestPost`, the deployed `/api/fortune` handler: the API key is checked first,
    then the body, then the date; every reply it builds carries the three CORS headers. */
module PagesFortune {
  import opened JsValues
  import opened FortuneCommon
  import ViteFortune

  const CorsHeaders: seq<(string, string)> :=
    [("Access-Control-Allow-Origin", "*"), ("Access-Control-Allow-Methods", "POST, OPTIONS"),
     ("Access-Control-Allow-Headers", "Content-Type")]

  predicate HasCors(headers: seq<(string, string)>)
  {
    forall h :: h in CorsHeaders ==> h in headers
  }

  const BadRequestMessage: string := "잘못된 요청입니다."
  const KeyMissingMessage: string := "OPENAI_API_KEY가 설정되지 않았습니다."
  const UpstreamFailedMessage: string := "AI 서비스에 문제가 발생했습니다. 잠시 후 다시 시도해주세요."

  /** `new Response(JSON.stringify(body), { status, headers: { Content-Type, ...corsHeaders } })`. */
  function JsonReply(status: int, body: Body): Reply
  {
    Reply(status, [JsonContentType] + CorsHeaders, body)
  }

  /** A truthy `context.env.OPENAI_API_KEY`. */
  predicate HasKey(key: Option<string>)
  {
    key.Some? && key.value != ""
  }

  /** The replies inside the `try` around the upstream call; an answer with text gets the
      default status 200. */
  function AfterRequest(upstream: Upstream): Reply
  {
    match upstream
    case FetchFailed => JsonReply(500, ErrorBody(ServerErrorMessage))
    case NotOk(_) => JsonReply(502, ErrorBody(UpstreamFailedMessage))
    case BadJson => JsonReply(500, ErrorBody(ServerErrorMessage))
    case Answered(data) =>
      var text := OutputText(data);
      if text == "" then JsonReply(502, ErrorBody(NoAnswerMessage))
      else JsonReply(200, ContentBody(text))
  }

  /** `onRequestPost` as written. Every reply it builds carries the CORS headers. The preflight reply is `new Response(null, { headers })`,
      whose status defaults to 200. A body that parses to `null` passes the parse check, and
      destructuring it throws outside any `try`, so the handler itself throws. */
  function OnRequestPost(verb: string, key: Option<string>, body: RequestBody, upstream: Upstream): (o: Outcome)
    ensures o.Replied? ==> HasCors(o.reply.headers) && o.reply.status in {200, 400, 500, 502}
  {
    if verb == "OPTIONS" then Replied(Reply(200, CorsHeaders, NoBody), None)
    else if !HasKey(key) then Replied(JsonReply(500, ErrorBody(KeyMissingMessage)), None)
    else if body.Unparsable? then Replied(JsonReply(400, ErrorBody(BadRequestMessage)), None)
    else if body.JsonNull? then Uncaught
    else if !HasDate(body) then Replied(JsonReply(400, ErrorBody(DateRequiredMessage)), None)
    else Replied(AfterRequest(upstream), Some(UpstreamRequest(key.value, Prompt(body))))
  }

  /** The model service is called exactly for a non-OPTIONS request with a key and a body
      with a date, with that key and the prompt built from the body. */
  lemma RequestSentOnlyWhenReady(verb: string, key: Option<string>, body: RequestBody, upstream: Upstream)
    ensures var o := OnRequestPost(verb, key, body, upstream);
            (o.Replied? && o.request.Some? <==>
               verb != "OPTIONS" && HasKey(key) && body.Fields? && HasDate(body))
            && (o.Replied? && o.request.Some? ==> o.request.value == UpstreamRequest(key.value, Prompt(body)))
  {
  }

  /** Each status, by the conditions that lead to it. A missing key gives 500 before the
      body is looked at; a body that is not JSON gives 400, as does a missing date. Each
      error reply is told apart by its message: the two 400s, the missing key and the
      generic 500, and the two 502s carry six different messages. */
  lemma StatusMeaning(verb: string, key: Option<string>, body: RequestBody, upstream: Upstream)
    ensures var o := OnRequestPost(verb, key, body, upstream);
            o.Replied? ==>
              var status := o.reply.status;
              var sent := o.request.Some?;
              (status == 200 <==>
                 verb == "OPTIONS" || (sent && upstream.Answered? && OutputText(upstream.data) != ""))
              && (status == 400 <==>
                    verb != "OPTIONS" && HasKey(key) && (body.Unparsable? || (body.Fields? && !HasDate(body))))
              && (status == 500 <==>
                    verb != "OPTIONS" && (!HasKey(key) || (sent && (upstream.FetchFailed? || upstream.BadJson?))))
              && (status == 502 <==>
                    sent && (upstream.NotOk? || (upstream.Answered? && OutputText(upstream.data) == "")))
              && (sent && status == 200 ==> o.reply.body == ContentBody(OutputText(upstream.data)))
    ensures var o := OnRequestPost(verb, key, body, upstream);
            o.Replied? ==>
              var sent := o.request.Some?;
              (o.reply.body == ErrorBody(KeyMissingMessage) <==> verb != "OPTIONS" && !HasKey(key))
              && (o.reply.body == ErrorBody(BadRequestMessage) <==>
                    verb != "OPTIONS" && HasKey(key) && body.Unparsable?)
              && (o.reply.body == ErrorBody(DateRequiredMessage) <==>
                    verb != "OPTIONS" && HasKey(key) && body.Fields? && !HasDate(body))
              && (o.reply.body == ErrorBody(ServerErrorMessage) <==>
                    sent && (upstream.FetchFailed? || upstream.BadJson?))
              && (o.reply.body == ErrorBody(UpstreamFailedMessage) <==> sent && upstream.NotOk?)
              && (o.reply.body == ErrorBody(NoAnswerMessage) <==>
                    sent && upstream.Answered? && OutputText(upstream.data) == "")
  {
  }

  /** As written, every reply carries the CORS headers, but a body that is the JSON `null`
      escapes as a thrown error, which the platform answers without them. */
  lemma NullBodyEscapesCors(verb: string, key: Option<string>, body: RequestBody, upstream: Upstream)
    ensures var o := OnRequestPost(verb, key, body, upstream);
            (o.Replied? ==> HasCors(o.reply.headers))
            && (o.Uncaught? <==> verb != "OPTIONS" && HasKey(key) && body.JsonNull?)
    ensures OnRequestPost("POST", Some("k"), JsonNull, upstream) == Uncaught
  {
  }

  /** `onRequestPost` with the null body rejected like any other body that is not a
      request: a 400 "잘못된 요청입니다." with CORS headers. Every other request is
      handled as written. */
  function OnRequestPostCorrected(verb: string, key: Option<string>, body: RequestBody, upstream: Upstream): (o: Outcome)
    ensures o.Replied? && HasCors(o.reply.headers)
  {
    if verb != "OPTIONS" && HasKey(key) && body.JsonNull? then
      Replied(JsonReply(400, ErrorBody(BadRequestMessage)), None)
    else
      OnRequestPost(verb, key, body, upstream)
  }

  /** Corrected, the handler always replies, and every reply carries the CORS headers. */
  lemma CorrectedAlwaysRepliesWithCors(verb: string, key: Option<string>, body: RequestBody, upstream: Upstream)
    ensures var o := OnRequestPostCorrected(verb, key, body, upstream);
            o.Replied? && HasCors(o.reply.headers)
            && (o.reply.status == 400 && o.reply.body == ErrorBody(BadRequestMessage) <==>
                  verb != "OPTIONS" && HasKey(key) && !body.Fields?)
  {
  }

  /** The upstream error text never reaches the reply. */
  lemma ErrorTextNotForwarded(verb: string, key: Option<string>, body: RequestBody, first: string, second: string)
    ensures OnRequestPost(verb, key, body, NotOk(first)) == OnRequestPost(verb, key, body, NotOk(second))
  {
  }

  /** For a POST with a date and a key, the deployed handler and the development server
      send the same request and answer with the same status; only the messages and headers
      differ. */
  lemma SameStatusesAsDevServer(body: RequestBody, key: string, devVars: map<string, string>, upstream: Upstream)
    requires body.Fields? && HasDate(body) && key != ""
    ensures var deployed := OnRequestPost("POST", Some(key), body, upstream);
            var dev := ViteFortune.HandleFortune("POST", body, Some(key), devVars, upstream);
            deployed.Replied? && dev.Replied?
            && deployed.request == dev.request && deployed.reply.status == dev.reply.status
  {
  }
}
