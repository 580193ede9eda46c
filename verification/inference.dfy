/** tooling/utils/inference/inference.py: the decision logic of the
    OpenRouter client, with the network and `json.loads` taken as
    parameters. A reply is an HTTP status with a body, or a transport
    failure; `decode` stands for `json.loads` and reports the
    `JSONDecodeError` text on failure. */
module Inference {
  import opened Wrappers
  import opened Errors
  import opened Strings
  import opened Numerals
  import opened Json

  // ---------------------------------------------------------------- payload

  /** A prompt is a plain string or a list of chat messages. */
  datatype Prompt = Plain(text: string) | Chat(messages: seq<map<string, string>>)

  /** A value in the request payload. */
  datatype Param =
    | PStr(s: string)
    | PInt(n: int)
    | PReal(x: real)
    | PBool(b: bool)
    | PMessages(m: seq<map<string, string>>)
    | PValue(j: Json)

  type Payload = map<string, Param>

  /** `_prepare_payload`: the fixed keys, `top_k` when it is given, the
      prompt under `prompt` or `messages`, then `kwargs`, whose entries win. */
  function PreparePayload(prompt: Prompt, model: string, maxTokens: int, temperature: real,
                          topP: real, topK: Option<int>, stream: bool, kwargs: Payload): Payload
  {
    var base := map["model" := PStr(model), "max_tokens" := PInt(maxTokens),
                    "temperature" := PReal(temperature), "top_p" := PReal(topP),
                    "stream" := PBool(stream)];
    var withTopK := if topK.Some? then base["top_k" := PInt(topK.value)] else base;
    var withPrompt := match prompt
      case Plain(s) => withTopK["prompt" := PStr(s)]
      case Chat(m) => withTopK["messages" := PMessages(m)];
    withPrompt + kwargs
  }

  /** Each setting without an extra keyword of the same name is the
      argument given; `top_k` is there only when given. */
  lemma PayloadSettings(prompt: Prompt, model: string, maxTokens: int, temperature: real,
                        topP: real, topK: Option<int>, stream: bool, kwargs: Payload)
    ensures var p := PreparePayload(prompt, model, maxTokens, temperature, topP, topK, stream, kwargs);
      ("model" !in kwargs ==> "model" in p && p["model"] == PStr(model)) &&
      ("max_tokens" !in kwargs ==> "max_tokens" in p && p["max_tokens"] == PInt(maxTokens)) &&
      ("temperature" !in kwargs ==> "temperature" in p && p["temperature"] == PReal(temperature)) &&
      ("top_p" !in kwargs ==> "top_p" in p && p["top_p"] == PReal(topP)) &&
      ("stream" !in kwargs ==> "stream" in p && p["stream"] == PBool(stream)) &&
      ("top_k" in p <==> topK.Some? || "top_k" in kwargs) &&
      (topK.Some? && "top_k" !in kwargs ==> p["top_k"] == PInt(topK.value))
  {
  }

  /** An extra keyword always reaches the payload with its own value. */
  lemma ExtraKeywordsWin(prompt: Prompt, model: string, maxTokens: int, temperature: real,
                         topP: real, topK: Option<int>, stream: bool, kwargs: Payload)
    ensures var p := PreparePayload(prompt, model, maxTokens, temperature, topP, topK, stream, kwargs);
      forall k :: k in kwargs ==> k in p && p[k] == kwargs[k]
  {
  }

  /** A text prompt goes under `prompt` and a message list under
      `messages`, unless an extra keyword of that name replaces it. */
  lemma PayloadPrompt(prompt: Prompt, model: string, maxTokens: int, temperature: real,
                      topP: real, topK: Option<int>, stream: bool, kwargs: Payload)
    ensures var p := PreparePayload(prompt, model, maxTokens, temperature, topP, topK, stream, kwargs);
      (prompt.Plain? ==> ("messages" in p <==> "messages" in kwargs)) &&
      (prompt.Plain? && "prompt" !in kwargs ==> "prompt" in p && p["prompt"] == PStr(prompt.text)) &&
      (prompt.Chat? ==> ("prompt" in p <==> "prompt" in kwargs)) &&
      (prompt.Chat? && "messages" !in kwargs ==>
        "messages" in p && p["messages"] == PMessages(prompt.messages))
  {
  }

  /** The payload holds the five fixed settings, `top_k` when given, the
      prompt's key, and the extra keywords, and nothing else. */
  lemma PayloadKeys(prompt: Prompt, model: string, maxTokens: int, temperature: real,
                    topP: real, topK: Option<int>, stream: bool, kwargs: Payload)
    ensures PreparePayload(prompt, model, maxTokens, temperature, topP, topK, stream, kwargs).Keys ==
      {"model", "max_tokens", "temperature", "top_p", "stream"}
      + (if topK.Some? then {"top_k"} else {})
      + (if prompt.Plain? then {"prompt"} else {"messages"})
      + kwargs.Keys
  {
  }

  // ---------------------------------------------------------------- APIError

  /** `bool(status_code)` for an optional integer status. */
  predicate CodeTruthy(code: Option<int>) {
    code.Some? && code.value != 0
  }

  /** The `APIError` the constructor builds, stated case by case: the
      message is `API Error`, then ` (code)` when the status is truthy,
      then `: message` when the message is truthy. */
  function ApiErrorOf(statusCode: Option<int>, message: Json, responseBody: Option<string>): (e: Exception)
    ensures e.ApiError? && e.statusCode == statusCode && e.responseBody == responseBody
    ensures !CodeTruthy(statusCode) && !Truthy(message) ==> e.message == "API Error"
    ensures CodeTruthy(statusCode) && !Truthy(message) ==>
      e.message == "API Error (" + IntToString(statusCode.value) + ")"
    ensures !CodeTruthy(statusCode) && Truthy(message) ==> e.message == "API Error: " + Str(message)
    ensures CodeTruthy(statusCode) && Truthy(message) ==>
      e.message == "API Error (" + IntToString(statusCode.value) + "): " + Str(message)
  {
    var code := if CodeTruthy(statusCode) then " (" + IntToString(statusCode.value) + ")" else "";
    var msg := if Truthy(message) then ": " + Str(message) else "";
    ApiError(statusCode, "API Error" + code + msg, responseBody)
  }

  /** `APIError.__init__`: builds the message with `+=` step by step. */
  method NewApiError(statusCode: Option<int>, message: Json, responseBody: Option<string>)
    returns (e: Exception)
    ensures e == ApiErrorOf(statusCode, message, responseBody)
  {
    ghost var code := if CodeTruthy(statusCode) then " (" + IntToString(statusCode.value) + ")" else "";
    ghost var shown := if Truthy(message) then ": " + Str(message) else "";
    var msg := "API Error";
    if CodeTruthy(statusCode) {
      msg := msg + " (" + IntToString(statusCode.value) + ")";
    }
    assert msg == "API Error" + code;
    if Truthy(message) {
      msg := msg + ": " + Str(message);
    }
    assert msg == "API Error" + code + shown;
    e := ApiError(statusCode, msg, responseBody);
  }

  /** A status of 0 is falsy, so it is left out of the message exactly as a
      missing status is; it is still stored. */
  lemma ZeroStatusNotShown(message: Json, body: Option<string>)
    ensures ApiErrorOf(Some(0), message, body).message == ApiErrorOf(None, message, body).message
    ensures ApiErrorOf(Some(0), message, body).statusCode == Some(0)
  {
  }

  /** The status shown in the message can be read back: the text between
      `API Error (` and the next `)` is the decimal status. */
  lemma StatusReadBack(code: int, message: Json, body: Option<string>)
    requires code != 0
    ensures var m := ApiErrorOf(Some(code), message, body).message;
      StartsWith(m, "API Error (") &&
      ParseInt(m[|"API Error ("|..|"API Error ("| + |IntToString(code)|]) == Some(code)
  {
    var m := ApiErrorOf(Some(code), message, body).message;
    var s := IntToString(code);
    var rest := ")" + (if Truthy(message) then ": " + Str(message) else "");
    assert m == "API Error (" + s + rest;
    Framed("API Error (", s, rest);
    ParseIntRoundTrip(code);
  }

  /** The pieces of `pre + s + rest` can be cut back out of it. */
  lemma Framed(pre: string, s: string, rest: string)
    ensures StartsWith(pre + s + rest, pre)
    ensures (pre + s + rest)[|pre|..|pre| + |s|] == s
  {
    assert (pre + s + rest)[..|pre|] == pre;
  }

  // ---------------------------------------------------------------- replies

  /** What the HTTP layer hands back: a status with a body, or a transport
      failure (`requests.RequestException` / `aiohttp.ClientError`) with its
      text. */
  datatype Response = HttpResponse(status: int, body: string) | TransportError(detail: string)

  /** `json.loads` / `response.json()`: the value, or the decoder's message. */
  type Decoder = string -> Result<Json, string>

  /** What `generate` hands back: the reply content, or, in streaming mode,
      the response itself for `stream_tokens`. */
  datatype Completion = Content(value: Json) | Streaming(response: Response)

  function HttpText(status: int): string {
    "HTTP " + IntToString(status)
  }

  /** The decoded error body leaves `error.message` to the fallback: it is
      a dict without `error`, or whose `error` is a dict without `message`. */
  predicate UsesFallback(body: string, decode: Decoder) {
    decode(body).Ok? && decode(body).value.JObj? &&
    match Lookup(decode(body).value.fields, "error")
    case None => true
    case Some(err) => err.JObj? && Lookup(err.fields, "message").None?
  }

  /** The `error.message` of a decoded error body: present when the body is
      a dict whose `error` is a dict holding `message`. */
  function BodyMessage(body: string, decode: Decoder): Option<Json> {
    if decode(body).Ok? && decode(body).value.JObj? then
      match Lookup(decode(body).value.fields, "error")
      case Some(err) => if err.JObj? then Lookup(err.fields, "message") else None
      case None => None
    else None
  }

  /** `error_data.get('error', {}).get('message', fallback)` on the decoded
      error body; a body that does not decode, or a `.get` on a non-dict,
      is caught by the bare `except` and gives `HTTP <status>`. */
  function ErrorMessage(status: int, body: string, decode: Decoder, fallback: Json): (m: Json)
    ensures BodyMessage(body, decode).Some? ==> m == BodyMessage(body, decode).value
    ensures UsesFallback(body, decode) ==> m == fallback
    ensures !(decode(body).Ok? && decode(body).value.JObj?) ==> m == JStr(HttpText(status))
    ensures (decode(body).Ok? && decode(body).value.JObj? &&
             Lookup(decode(body).value.fields, "error").Some? &&
             !Lookup(decode(body).value.fields, "error").value.JObj?) ==> m == JStr(HttpText(status))
  {
    match decode(body)
    case Err(_) => JStr(HttpText(status))
    case Ok(data) =>
      match Get(data, "error", JObj([]))
      case Err(_) => JStr(HttpText(status))
      case Ok(err) =>
        match Get(err, "message", fallback)
        case Err(_) => JStr(HttpText(status))
        case Ok(m) => m
  }

  /** The fallback is the only input the lookup's result depends on beyond
      the body: two fallbacks give different messages only when both are
      used. */
  lemma ErrorMessageFallbackOnly(status: int, body: string, decode: Decoder, f1: Json, f2: Json)
    ensures ErrorMessage(status, body, decode, f1) != ErrorMessage(status, body, decode, f2) ==>
      UsesFallback(body, decode) &&
      ErrorMessage(status, body, decode, f1) == f1 && ErrorMessage(status, body, decode, f2) == f2
  {
    if decode(body).Ok? && decode(body).value.JObj? {
      var data := decode(body).value;
      match Lookup(data.fields, "error")
      case None =>
      case Some(err) =>
        assert Get(data, "error", JObj([])) == Ok(err);
        if err.JObj? {
          match Lookup(err.fields, "message")
          case None =>
          case Some(_) =>
        }
    }
  }

  /** `raise APIError(message=f"Unexpected response format: {data}")`. */
  function Unexpected(data: Json): Exception {
    ApiErrorOf(None, JStr("Unexpected response format: " + Str(data)), None)
  }

  /** The first choice, when `data` is a dict whose `choices` is a
      non-empty list. */
  function FirstChoice(data: Json): Option<Json> {
    if data.JObj? then
      match Lookup(data.fields, "choices")
      case Some(JArr(cs)) => if |cs| > 0 then Some(cs[0]) else None
      case _ => None
    else None
  }

  /** The content selection after a successful decode: the first choice's
      `message.content`, else its `text`, else an `Unexpected response
      format` error. The Python operations on the way raise what they
      raise on values of the wrong type. */
  function ChoiceContent(data: Json): (r: Result<Json, Exception>)
    ensures r.Ok? ==> FirstChoice(data).Some?
    ensures data.JObj? && Lookup(data.fields, "choices").None? ==> r == Err(Unexpected(data))
    ensures data.JObj? && Lookup(data.fields, "choices") == Some(JArr([])) ==> r == Err(Unexpected(data))
    ensures FirstChoice(data).Some? && FirstChoice(data).value.JObj? ==>
      var c := FirstChoice(data).value.fields;
      match Lookup(c, "message")
      case Some(m) => r == Item(m, "content")
      case None =>
        match Lookup(c, "text")
        case Some(t) => r == Ok(t)
        case None => r == Err(Unexpected(data))
  {
    var hasChoices :- In("choices", data);
    if !hasChoices then Err(Unexpected(data))
    else
      var choices :- Item(data, "choices");
      var n :- Len(choices);
      if n == 0 then Err(Unexpected(data))
      else
        var c0 :- First(choices);
        var hasMessage :- In("message", c0);
        if hasMessage then
          var message :- Item(c0, "message");
          Item(message, "content")
        else
          // `c0` already passed an `in` test, so this one cannot raise.
          if In("text", c0) == Ok(true) then Item(c0, "text") else Err(Unexpected(data))
  }

  /** A well-formed completion yields its content. */
  lemma ChoiceContentOfCompletion(content: Json, rest: seq<Json>)
    ensures ChoiceContent(JObj([("choices", JArr([JObj([("message", JObj([("content", content)]))])] + rest))]))
      == Ok(content)
  {
  }

  /** The response handling of `generate` (synchronous). */
  function GenerateSync(resp: Response, stream: bool, decode: Decoder): Result<Completion, Exception>
  {
    match resp
    case TransportError(detail) =>
      // A connection failure carries no response: `APIError(message=str(e))`.
      Err(ApiErrorOf(None, JStr(detail), None))
    case HttpResponse(status, body) =>
      if status >= 400 then
        Err(ApiErrorOf(Some(status), ErrorMessage(status, body, decode, JStr("Unknown error")), Some(body)))
      else if stream then
        Ok(Streaming(resp))
      else
        match decode(body)
        // `requests`' JSON decode error is a `RequestException` without a
        // response, so it is wrapped as `APIError(message=str(e))`.
        case Err(msg) => Err(ApiErrorOf(None, JStr(msg), None))
        case Ok(data) =>
          var v :- ChoiceContent(data);
          Ok(Content(v))
  }

  /** The response handling of `generate_async`. */
  function GenerateAsync(resp: Response, decode: Decoder): Result<Json, Exception>
  {
    match resp
    case TransportError(detail) => Err(ApiErrorOf(None, JStr("Request error: " + detail), None))
    case HttpResponse(status, body) =>
      if status >= 400 then
        Err(ApiErrorOf(Some(status), ErrorMessage(status, body, decode, JStr(HttpText(status))), Some(body)))
      else
        match decode(body)
        // Not an `aiohttp.ClientError`: the decode error escapes unwrapped.
        case Err(msg) => Err(Raised(JsonDecodeError, msg))
        case Ok(data) => ChoiceContent(data)
  }

  /** What `generate` does with each kind of response: an error status
      raises `APIError` with the status and the body, a streamed reply is
      handed back unread, a completion yields its content, and both a
      decoding failure and a transport failure become `APIError`s without
      a status. */
  lemma GenerateSyncOutcomes(resp: Response, stream: bool, decode: Decoder)
    ensures resp.HttpResponse? && resp.status < 400 && stream ==>
      GenerateSync(resp, stream, decode) == Ok(Streaming(resp))
    ensures resp.HttpResponse? && resp.status < 400 && !stream && decode(resp.body).Ok? ==>
      GenerateSync(resp, stream, decode) ==
        match ChoiceContent(decode(resp.body).value)
        case Ok(v) => Ok(Content(v))
        case Err(e) => Err(e)
    ensures resp.HttpResponse? && resp.status < 400 && !stream && decode(resp.body).Err? ==>
      GenerateSync(resp, stream, decode) == Err(ApiErrorOf(None, JStr(decode(resp.body).error), None))
    ensures resp.TransportError? ==>
      GenerateSync(resp, stream, decode) == Err(ApiErrorOf(None, JStr(resp.detail), None))
  {
  }

  /** On an error status `generate` raises `APIError` with the status and
      the body; its message falls back to `Unknown error`, or to
      `HTTP <status>` when the body does not decode. */
  lemma GenerateSyncErrorStatus(status: int, body: string, stream: bool, decode: Decoder)
    requires status >= 400
    ensures GenerateSync(HttpResponse(status, body), stream, decode) ==
      Err(ApiErrorOf(Some(status), ErrorMessage(status, body, decode, JStr("Unknown error")), Some(body)))
    ensures var r := GenerateSync(HttpResponse(status, body), stream, decode);
      r.Err? && r.error.ApiError? && r.error.statusCode == Some(status) &&
      r.error.responseBody == Some(body) &&
      (BodyMessage(body, decode).Some? && BodyMessage(body, decode).value.JStr? &&
       BodyMessage(body, decode).value.s != "" ==>
        r.error.message == "API Error (" + IntToString(status) + "): " + BodyMessage(body, decode).value.s) &&
      (decode(body).Err? ==>
        r.error.message == "API Error (" + IntToString(status) + "): " + HttpText(status)) &&
      (UsesFallback(body, decode) ==>
        r.error.message == "API Error (" + IntToString(status) + "): Unknown error")
  {
    var m := ErrorMessage(status, body, decode, JStr("Unknown error"));
    assert GenerateSync(HttpResponse(status, body), stream, decode) == Err(ApiErrorOf(Some(status), m, Some(body)));
    assert CodeTruthy(Some(status));
    if decode(body).Err? {
      assert m == JStr(HttpText(status));
      assert Truthy(m) && Str(m) == HttpText(status);
    }
    if UsesFallback(body, decode) {
      assert m == JStr("Unknown error");
      assert Truthy(m) && Str(m) == "Unknown error";
      assert "API Error (" + IntToString(status) + "): " + "Unknown error" ==
        "API Error (" + IntToString(status) + "): Unknown error";
    }
  }

  /** A rate-limit reply: status 429 with `{"error": {"message": "rate
      limited"}}` raises `APIError` with the message taken from the body,
      in both variants. */
  lemma RateLimited(body: string, decode: Decoder)
    requires decode(body) == Ok(JObj([("error", JObj([("message", JStr("rate limited"))]))]))
    ensures GenerateSync(HttpResponse(429, body), false, decode).error.message == "API Error (429): rate limited"
    ensures GenerateAsync(HttpResponse(429, body), decode).error.message == "API Error (429): rate limited"
  {
    RateLimitedSync(body, decode);
    RateLimitedAsync(body, decode);
  }

  lemma RateLimitedSync(body: string, decode: Decoder)
    requires decode(body) == Ok(JObj([("error", JObj([("message", JStr("rate limited"))]))]))
    ensures GenerateSync(HttpResponse(429, body), false, decode).error.message == "API Error (429): rate limited"
  {
    assert BodyMessage(body, decode) == Some(JStr("rate limited"));
    Code429();
    GenerateSyncErrorStatus(429, body, false, decode);
  }

  lemma RateLimitedAsync(body: string, decode: Decoder)
    requires decode(body) == Ok(JObj([("error", JObj([("message", JStr("rate limited"))]))]))
    ensures GenerateAsync(HttpResponse(429, body), decode).error.message == "API Error (429): rate limited"
  {
    assert BodyMessage(body, decode) == Some(JStr("rate limited"));
    Code429();
    GenerateAsyncOutcomes(HttpResponse(429, body), decode);
  }

  lemma Code429()
    ensures IntToString(429) == "429"
  {
    assert NatToString(4) == "4";
    assert NatToString(42) == "42";
  }

  /** What `generate_async` does with each kind of response: as `generate`
      on an error status, but a decoding failure escapes unwrapped and a
      transport failure's message starts with `Request error: `. */
  lemma GenerateAsyncOutcomes(resp: Response, decode: Decoder)
    ensures resp.HttpResponse? && resp.status >= 400 ==>
      GenerateAsync(resp, decode) ==
        Err(ApiErrorOf(Some(resp.status), ErrorMessage(resp.status, resp.body, decode, JStr(HttpText(resp.status))),
                       Some(resp.body)))
    ensures resp.HttpResponse? && resp.status >= 400 ==>
      var r := GenerateAsync(resp, decode);
      r.Err? && r.error.ApiError? && r.error.statusCode == Some(resp.status) &&
      r.error.responseBody == Some(resp.body) &&
      (BodyMessage(resp.body, decode).Some? && BodyMessage(resp.body, decode).value.JStr? &&
       BodyMessage(resp.body, decode).value.s != "" ==>
        r.error.message == "API Error (" + IntToString(resp.status) + "): " + BodyMessage(resp.body, decode).value.s) &&
      (decode(resp.body).Err? || UsesFallback(resp.body, decode) ==>
        r.error.message == "API Error (" + IntToString(resp.status) + "): " + HttpText(resp.status))
    ensures resp.HttpResponse? && resp.status < 400 && decode(resp.body).Ok? ==>
      GenerateAsync(resp, decode) == ChoiceContent(decode(resp.body).value)
    ensures resp.HttpResponse? && resp.status < 400 && decode(resp.body).Err? ==>
      GenerateAsync(resp, decode) == Err(Raised(JsonDecodeError, decode(resp.body).error))
    ensures resp.TransportError? ==>
      GenerateAsync(resp, decode) == Err(ApiErrorOf(None, JStr("Request error: " + resp.detail), None))
  {
  }

  /** On an error status both variants raise the same `APIError` except
      when the body leaves the message to the fallback, where the
      synchronous one says `Unknown error` and the asynchronous one
      `HTTP <status>`. */
  lemma ErrorStatusSyncAsync(status: int, body: string, decode: Decoder)
    requires status >= 400
    ensures var s := GenerateSync(HttpResponse(status, body), false, decode).error;
      var a := GenerateAsync(HttpResponse(status, body), decode).error;
      s.statusCode == a.statusCode && s.responseBody == a.responseBody &&
      (!UsesFallback(body, decode) ==> s == a) &&
      (UsesFallback(body, decode) ==>
        s.message == "API Error (" + IntToString(status) + "): Unknown error" &&
        a.message == "API Error (" + IntToString(status) + "): " + HttpText(status))
  {
    GenerateSyncErrorStatus(status, body, false, decode);
    GenerateAsyncOutcomes(HttpResponse(status, body), decode);
    if !UsesFallback(body, decode) {
      var ms := ErrorMessage(status, body, decode, JStr("Unknown error"));
      var ma := ErrorMessage(status, body, decode, JStr(HttpText(status)));
      ErrorMessageFallbackOnly(status, body, decode, JStr("Unknown error"), JStr(HttpText(status)));
      assert ms == ma;
      assert GenerateSync(HttpResponse(status, body), false, decode) == Err(ApiErrorOf(Some(status), ms, Some(body)));
      assert GenerateAsync(HttpResponse(status, body), decode) == Err(ApiErrorOf(Some(status), ma, Some(body)));
    }
  }

  // ---------------------------------------------------------------- streaming

  /** What one line of a streamed reply does to the token stream. */
  datatype LineAction = Skip | Stop | Emit(token: Json) | Fail(error: Exception)

  /** The line with one leading `data: ` removed. */
  function FrameBody(line: string): (r: string)
    ensures StartsWith(line, "data: ") ==> line == "data: " + r
    ensures !StartsWith(line, "data: ") ==> r == line
  {
    if StartsWith(line, "data: ") then line[6..] else line
  }

  /** `data.get('choices', [{}])[0].get('delta', {}).get('content')`. */
  function DeltaContent(data: Json): Result<Json, Exception> {
    var choices :- Get(data, "choices", JArr([JObj([])]));
    var c0 :- First(choices);
    var delta :- Get(c0, "delta", JObj([]));
    Get(delta, "content", JNull)
  }

  /** A chunk that is not an object raises `AttributeError`; one without
      `choices` reads the defaults and gives `None`; an empty `choices`
      list raises `IndexError`; and a chunk of the documented shape gives
      the content of the first choice's delta. */
  lemma DeltaContentCases(data: Json, c: Json)
    ensures !data.JObj? ==>
      DeltaContent(data).Err? && DeltaContent(data).error.Raised? && DeltaContent(data).error.kind == AttributeError
    ensures data.JObj? && Lookup(data.fields, "choices").None? ==> DeltaContent(data) == Ok(JNull)
    ensures data.JObj? && Lookup(data.fields, "choices") == Some(JArr([])) ==>
      DeltaContent(data) == Err(Raised(IndexError, "list index out of range"))
    ensures DeltaContent(JObj([("choices", JArr([JObj([("delta", JObj([("content", c)]))])]))])) == Ok(c)
  {
  }

  /** One pass of the loop body: an empty line is skipped; after the prefix
      is removed a line that strips to `[DONE]` ends the stream; a line
      that does not decode is skipped; a truthy delta content is emitted,
      and an error on the way out of the decoded value escapes. */
  function LineStep(line: string, decode: Decoder): (a: LineAction)
    ensures line == [] ==> a == Skip
    ensures line != [] && Strip(FrameBody(line)) == "[DONE]" ==> a == Stop
    ensures a.Emit? ==> Truthy(a.token)
    ensures line != [] && Strip(FrameBody(line)) != "[DONE]" && decode(FrameBody(line)).Err? ==> a == Skip
  {
    if line == [] then Skip
    else
      var payload := FrameBody(line);
      if Strip(payload) == "[DONE]" then Stop
      else
        match decode(payload)
        case Err(_) => Skip
        case Ok(data) =>
          match DeltaContent(data)
          case Err(e) => Fail(e)
          case Ok(delta) => if Truthy(delta) then Emit(delta) else Skip
  }

  /** A line that decodes: an exception from reading its delta content
      fails the stream, a truthy content is emitted, and a falsy one is
      skipped. */
  lemma LineStepDecoded(line: string, decode: Decoder)
    requires line != [] && Strip(FrameBody(line)) != "[DONE]" && decode(FrameBody(line)).Ok?
    ensures var d := DeltaContent(decode(FrameBody(line)).value);
      (d.Err? ==> LineStep(line, decode) == Fail(d.error)) &&
      (d.Ok? && Truthy(d.value) ==> LineStep(line, decode) == Emit(d.value)) &&
      (d.Ok? && !Truthy(d.value) ==> LineStep(line, decode) == Skip)
  {
  }

  /** How a stream ends: the lines ran out, `[DONE]` was read, or an
      exception escaped from the loop. */
  datatype End = Exhausted | Done | Failed(error: Exception)

  datatype Streamed = Streamed(tokens: seq<Json>, end: End)

  function Prepend(tokens: seq<Json>, s: Streamed): Streamed {
    Streamed(tokens + s.tokens, s.end)
  }

  /** What a line's action does to the rest of the stream. */
  function Then(a: LineAction, rest: Streamed): Streamed {
    match a
    case Skip => rest
    case Stop => Streamed([], Done)
    case Fail(e) => Streamed([], Failed(e))
    case Emit(t) => Prepend([t], rest)
  }

  /** The tokens a stream yields, line by line, and how it ends. */
  function DecodeStream(lines: seq<string>, decode: Decoder): (s: Streamed)
    ensures forall i :: 0 <= i < |s.tokens| ==> Truthy(s.tokens[i])
    ensures |s.tokens| <= |lines|
  {
    if |lines| == 0 then Streamed([], Exhausted)
    else Then(LineStep(lines[0], decode), DecodeStream(lines[1..], decode))
  }

  /** `stream_tokens` and `stream_tokens_async`: the loop over the lines,
      with `continue` for skipped lines and `break` on `[DONE]`. */
  method StreamTokens(lines: seq<string>, decode: Decoder) returns (tokens: seq<Json>, end: End)
    ensures Streamed(tokens, end) == DecodeStream(lines, decode)
  {
    tokens := [];
    end := Exhausted;
    var i := 0;
    while i < |lines|
      invariant 0 <= i <= |lines|
      invariant Prepend(tokens, DecodeStream(lines[i..], decode)) == DecodeStream(lines, decode)
    {
      ghost var rest := DecodeStream(lines[i + 1..], decode);
      assert lines[i..][1..] == lines[i + 1..];
      assert DecodeStream(lines[i..], decode) == Then(LineStep(lines[i], decode), rest);
      var line := lines[i];
      i := i + 1;
      if line == [] {
        continue;
      }
      var payload := FrameBody(line);
      if Strip(payload) == "[DONE]" {
        end := Done;
        return;
      }
      match decode(payload) {
        case Err(_) =>
          continue;
        case Ok(data) =>
          match DeltaContent(data) {
            case Err(e) =>
              end := Failed(e);
              return;
            case Ok(delta) =>
              if Truthy(delta) {
                assert LineStep(line, decode) == Emit(delta);
                tokens := tokens + [delta];
              }
          }
      }
    }
    assert lines[i..] == [];
  }

  /** The action of each line, in order. */
  function Steps(lines: seq<string>, decode: Decoder): (acts: seq<LineAction>)
    ensures |acts| == |lines|
  {
    if |lines| == 0 then [] else [LineStep(lines[0], decode)] + Steps(lines[1..], decode)
  }

  /** The stream that a run of line actions produces. */
  function Run(acts: seq<LineAction>): Streamed {
    if |acts| == 0 then Streamed([], Exhausted) else Then(acts[0], Run(acts[1..]))
  }

  /** Decoding a stream is running the actions of its lines. */
  lemma {:induction false} DecodeStreamIsRun(lines: seq<string>, decode: Decoder)
    ensures DecodeStream(lines, decode) == Run(Steps(lines, decode))
  {
    if |lines| > 0 {
      DecodeStreamIsRun(lines[1..], decode);
      assert Steps(lines, decode)[1..] == Steps(lines[1..], decode);
    }
  }

  /** Action `j` is the action of line `j`. */
  lemma {:induction false} StepsAt(lines: seq<string>, decode: Decoder, j: nat)
    requires j < |lines|
    ensures Steps(lines, decode)[j] == LineStep(lines[j], decode)
  {
    if j > 0 {
      StepsAt(lines[1..], decode, j - 1);
    }
  }

  /** Every token of a run is emitted by one of its actions. */
  lemma {:induction false} RunTokensEmitted(acts: seq<LineAction>)
    ensures forall k :: 0 <= k < |Run(acts).tokens| ==> Emit(Run(acts).tokens[k]) in acts
  {
    if |acts| > 0 {
      RunTokensEmitted(acts[1..]);
      assert forall a :: a in acts[1..] ==> a in acts;
    }
  }

  /** A run ends with `[DONE]` or an exception only at an action that stops
      or fails with that exception, and runs out exactly when no action
      stops or fails. */
  lemma {:induction false} RunEnds(acts: seq<LineAction>)
    ensures Run(acts).end == Done ==> Stop in acts
    ensures Run(acts).end.Failed? ==> Fail(Run(acts).end.error) in acts
    ensures Run(acts).end == Exhausted <==> forall a :: a in acts ==> a.Skip? || a.Emit?
  {
    if |acts| > 0 {
      RunEnds(acts[1..]);
      assert acts == [acts[0]] + acts[1..];
    }
  }

  /** How a stream ends, and where its tokens come from: it ends with
      `[DONE]` or an exception only at a line that stops or fails with it,
      it runs out exactly when no line stops or fails, and every token is
      the content emitted by one of its lines. */
  lemma StreamEnds(lines: seq<string>, decode: Decoder)
    ensures var s := DecodeStream(lines, decode); var acts := Steps(lines, decode);
      (forall j :: 0 <= j < |lines| ==> acts[j] == LineStep(lines[j], decode)) &&
      (s.end == Done ==> Stop in acts) &&
      (s.end.Failed? ==> Fail(s.end.error) in acts) &&
      (s.end == Exhausted <==> forall a :: a in acts ==> a.Skip? || a.Emit?) &&
      (forall k :: 0 <= k < |s.tokens| ==> Emit(s.tokens[k]) in acts)
  {
    DecodeStreamIsRun(lines, decode);
    RunEnds(Steps(lines, decode));
    RunTokensEmitted(Steps(lines, decode));
    forall j | 0 <= j < |lines|
      ensures Steps(lines, decode)[j] == LineStep(lines[j], decode)
    {
      StepsAt(lines, decode, j);
    }
  }

  /** A streamed chunk of the documented shape, carrying `content`. */
  function Chunk(content: Json): Json {
    JObj([("choices", JArr([JObj([("delta", JObj([("content", content)]))])]))])
  }

  /** Each chunk text as a server-sent line. */
  function DataLines(chunks: seq<string>): (lines: seq<string>)
    ensures |lines| == |chunks|
  {
    if |chunks| == 0 then [] else ["data: " + chunks[0]] + DataLines(chunks[1..])
  }

  /** The truthy values of `cs`, in order. */
  function TruthyOnly(cs: seq<Json>): seq<Json> {
    if |cs| == 0 then [] else (if Truthy(cs[0]) then [cs[0]] else []) + TruthyOnly(cs[1..])
  }

  /** A line carrying a chunk of the documented shape emits its content
      when that is truthy and is skipped otherwise. */
  lemma ChunkLine(chunk: string, c: Json, decode: Decoder)
    requires Strip(chunk) != "[DONE]" && decode(chunk) == Ok(Chunk(c))
    ensures LineStep("data: " + chunk, decode) == if Truthy(c) then Emit(c) else Skip
  {
    var line := "data: " + chunk;
    assert line[..6] == "data: " && line[6..] == chunk;
    assert FrameBody(line) == chunk;
    DeltaContentCases(Chunk(c), c);
  }

  /** Chunk `i` is a text that decodes to `Chunk(cs[i])` and is not the
      end marker, for every `i`. */
  predicate Carries(chunks: seq<string>, cs: seq<Json>, decode: Decoder) {
    |chunks| == |cs| &&
    (|chunks| > 0 ==> Strip(chunks[0]) != "[DONE]" && decode(chunks[0]) == Ok(Chunk(cs[0])) &&
                      Carries(chunks[1..], cs[1..], decode))
  }

  /** Reading a line, then the rest. */
  lemma StreamCons(line: string, tail: seq<string>, decode: Decoder)
    ensures DecodeStream([line] + tail, decode) == Then(LineStep(line, decode), DecodeStream(tail, decode))
  {
    assert ([line] + tail)[1..] == tail;
  }

  /** One more chunk in front of a well-formed stream adds its content
      when that is truthy. */
  lemma ChunkStep(chunks: seq<string>, cs: seq<Json>, decode: Decoder)
    requires |chunks| == |cs| > 0
    requires Strip(chunks[0]) != "[DONE]" && decode(chunks[0]) == Ok(Chunk(cs[0]))
    requires DecodeStream(DataLines(chunks[1..]) + ["data: [DONE]"], decode) == Streamed(TruthyOnly(cs[1..]), Done)
    ensures DecodeStream(DataLines(chunks) + ["data: [DONE]"], decode) == Streamed(TruthyOnly(cs), Done)
  {
    var tail := DataLines(chunks[1..]) + ["data: [DONE]"];
    var x := "data: " + chunks[0];
    DataLinesCons(chunks, "data: [DONE]");
    ChunkLine(chunks[0], cs[0], decode);
    StreamCons(x, tail, decode);
    if Truthy(cs[0]) {
      assert TruthyOnly(cs) == [cs[0]] + TruthyOnly(cs[1..]);
    } else {
      assert TruthyOnly(cs) == TruthyOnly(cs[1..]);
    }
  }

  lemma DataLinesCons(chunks: seq<string>, last: string)
    requires |chunks| > 0
    ensures DataLines(chunks) + [last] == ["data: " + chunks[0]] + (DataLines(chunks[1..]) + [last])
  {
    var a, b, c := ["data: " + chunks[0]], DataLines(chunks[1..]), [last];
    assert (a + b) + c == a + (b + c);
  }

  /** A well-formed stream: chunks of the documented shape followed by
      `data: [DONE]` yield exactly the truthy contents, in order, and end
      with `[DONE]`. */
  lemma {:induction false} ChunkStream(chunks: seq<string>, cs: seq<Json>, decode: Decoder)
    requires Carries(chunks, cs, decode)
    ensures DecodeStream(DataLines(chunks) + ["data: [DONE]"], decode) == Streamed(TruthyOnly(cs), Done)
  {
    if |chunks| == 0 {
      DoneLine("data: [DONE]", decode);
      StreamCons("data: [DONE]", [], decode);
      assert DataLines(chunks) + ["data: [DONE]"] == ["data: [DONE]"] + [];
    } else {
      ChunkStream(chunks[1..], cs[1..], decode);
      ChunkStep(chunks, cs, decode);
    }
  }

  /** The stream read from `x` followed by the one read from `y`: `y`
      counts only if `x` ran out without `[DONE]` or an error. */
  function Join(x: Streamed, y: Streamed): Streamed {
    if x.end == Exhausted then Prepend(x.tokens, y) else x
  }

  lemma ThenJoin(step: LineAction, x: Streamed, y: Streamed)
    ensures Then(step, Join(x, y)) == Join(Then(step, x), y)
  {
    if step.Emit? && x.end == Exhausted {
      assert [step.token] + (x.tokens + y.tokens) == ([step.token] + x.tokens) + y.tokens;
    }
  }

  /** Reading two runs of lines one after the other: the second run is read
      only if the first ran out without `[DONE]` or an error. */
  lemma {:induction false} DecodeStreamAppend(a: seq<string>, b: seq<string>, decode: Decoder)
    ensures DecodeStream(a + b, decode) == Join(DecodeStream(a, decode), DecodeStream(b, decode))
  {
    if |a| == 0 {
      assert a + b == b;
    } else {
      assert (a + b)[0] == a[0];
      assert (a + b)[1..] == a[1..] + b;
      DecodeStreamAppend(a[1..], b, decode);
      ThenJoin(LineStep(a[0], decode), DecodeStream(a[1..], decode), DecodeStream(b, decode));
    }
  }

  /** Nothing after the first `[DONE]` line is read. */
  lemma DoneEndsStream(a: seq<string>, line: string, b: seq<string>, decode: Decoder)
    requires line != [] && Strip(FrameBody(line)) == "[DONE]"
    requires DecodeStream(a, decode).end == Exhausted
    ensures DecodeStream(a + [line] + b, decode) == Streamed(DecodeStream(a, decode).tokens, Done)
  {
    DecodeStreamAppend(a, [line] + b, decode);
    assert a + [line] + b == a + ([line] + b);
    assert ([line] + b)[0] == line;
    assert LineStep(line, decode) == Stop;
    assert DecodeStream([line] + b, decode) == Streamed([], Done);
    assert DecodeStream(a, decode).tokens + [] == DecodeStream(a, decode).tokens;
  }

  /** A skipped line (empty, undecodable, or with falsy content) can be
      removed without changing the result. */
  lemma SkippedLineIgnored(a: seq<string>, line: string, b: seq<string>, decode: Decoder)
    requires LineStep(line, decode) == Skip
    ensures DecodeStream(a + [line] + b, decode) == DecodeStream(a + b, decode)
  {
    DecodeStreamAppend(a, [line] + b, decode);
    DecodeStreamAppend(a, b, decode);
    assert a + [line] + b == a + ([line] + b);
    assert ([line] + b)[1..] == b;
  }

  /** `data: [DONE]` is the end marker. */
  lemma DoneLine(line: string, decode: Decoder)
    requires line == "data: " + "[DONE]"
    ensures LineStep(line, decode) == Stop
  {
    assert StartsWith(line, "data: ");
    assert FrameBody(line) == "[DONE]";
    StripNoSpace("[DONE]");
  }
}
