/** tooling/models/model.py: a `Model` holds the generation settings and
    forwards prompts to the provider; `batch_generate` sends one request per
    prompt and turns each settled outcome into a string. */
module Models {
  import opened Wrappers
  import opened Errors
  import opened Json
  import opened Inference

  /** `override or default` for an optional number: a missing or zero
      override falls back to the default. */
  function OrReal(override: Option<real>, default: real): (r: real)
    ensures override.Some? && override.value != 0.0 ==> r == override.value
    ensures override.None? || override.value == 0.0 ==> r == default
  {
    if override.Some? && override.value != 0.0 then override.value else default
  }

  function OrInt(override: Option<int>, default: int): (r: int)
    ensures override.Some? && override.value != 0 ==> r == override.value
    ensures override.None? || override.value == 0 ==> r == default
  {
    if override.Some? && override.value != 0 then override.value else default
  }

  /** `asyncio.gather(*tasks, return_exceptions=True)`: the outcome of
      every request, in the order of the requests, failures included.
      `send(j, p)` is the HTTP round trip of the `j`-th request, so two
      requests with the same payload may get different responses. */
  function Gather(tasks: seq<Payload>, send: (nat, Payload) -> Response, decode: Decoder)
    : (outcomes: seq<Result<Json, Exception>>)
    ensures |outcomes| == |tasks|
    ensures forall j :: 0 <= j < |tasks| ==> outcomes[j] == GenerateAsync(send(j, tasks[j]), decode)
  {
    if |tasks| == 0 then []
    else Gather(tasks[..|tasks| - 1], send, decode) + [GenerateAsync(send(|tasks| - 1, tasks[|tasks| - 1]), decode)]
  }

  /** What one settled request becomes in the list `batch_generate`
      returns: the reply as it is, or `Error: ` followed by `str(exc)`. */
  function Slot(outcome: Result<Json, Exception>): Json {
    match outcome
    case Ok(v) => v
    case Err(e) => JStr("Error: " + Text(e))
  }

  /** The second loop of `batch_generate`: each settled outcome becomes
      its slot, in order. */
  method ProcessResults(settled: seq<Result<Json, Exception>>) returns (results: seq<Json>)
    ensures |results| == |settled|
    ensures forall j :: 0 <= j < |settled| ==> results[j] == Slot(settled[j])
  {
    results := [];
    for i := 0 to |settled|
      invariant |results| == i
      invariant forall j :: 0 <= j < i ==> results[j] == Slot(settled[j])
    {
      match settled[i] {
        case Err(e) =>
          results := results + [JStr("Error: " + Text(e))];
        case Ok(v) =>
          results := results + [v];
      }
    }
  }

  class Model {
    const model: string
    const maxTokens: int
    const temperature: real
    const topP: real
    const topK: Option<int>
    const stream: bool
    const kwargs: Payload

    /** `Model.__init__`: each argument is kept in the field of the same
        name. */
    constructor(model: string, maxTokens: int, temperature: real, topP: real,
                topK: Option<int>, stream: bool, kwargs: Payload)
      ensures this.model == model && this.maxTokens == maxTokens
      ensures this.temperature == temperature && this.topP == topP
      ensures this.topK == topK && this.stream == stream && this.kwargs == kwargs
    {
      this.model := model;
      this.maxTokens := maxTokens;
      this.temperature := temperature;
      this.topP := topP;
      this.topK := topK;
      this.stream := stream;
      this.kwargs := kwargs;
    }

    /** The payload `generate` and `batch_generate` send for `prompt`: the
        per-call `temperature` and `max_tokens` when truthy, the stored
        ones otherwise, and every other setting from the fields. */
    function Request(prompt: string, temperature: Option<real>, maxTokens: Option<int>): Payload
    {
      PreparePayload(Plain(prompt), model, OrInt(maxTokens, this.maxTokens),
                     OrReal(temperature, this.temperature), topP, topK, stream, kwargs)
    }

    /** `generate`: the provider's asynchronous call on the request, with
        `send` standing for the HTTP round trip. A `prompt` entry among the
        extra settings clashes with the `prompt=` argument of the call. */
    function Generate(prompt: string, temperature: Option<real>, maxTokens: Option<int>,
                      send: Payload -> Response, decode: Decoder): Result<Json, Exception>
    {
      if "prompt" in kwargs then Err(DuplicatePrompt)
      else GenerateAsync(send(Request(prompt, temperature, maxTokens)), decode)
    }

    /** `batch_generate`: one request per prompt in prompt order, then, for
        the settled outcomes in the same order, the reply or an
        `Error: ...` string. Only the keyword clash of the first call
        escapes; every other exception is kept in its slot. `send(i, p)`
        is the round trip of the request for prompt `i`. */
    method BatchGenerate(prompts: seq<string>, temperature: Option<real>, maxTokens: Option<int>,
                         send: (nat, Payload) -> Response, decode: Decoder) returns (r: Result<seq<Json>, Exception>)
      ensures r.Err? <==> "prompt" in kwargs && |prompts| > 0
      ensures r.Err? ==> r.error == DuplicatePrompt
      ensures r.Ok? ==> |r.value| == |prompts|
      ensures r.Ok? ==> forall i :: 0 <= i < |prompts| ==>
        r.value[i] == Slot(Generate(prompts[i], temperature, maxTokens, p => send(i, p), decode))
    {
      var tasks: seq<Payload> := [];
      for i := 0 to |prompts|
        invariant |tasks| == i
        invariant i > 0 ==> "prompt" !in kwargs
        invariant forall j :: 0 <= j < i ==> tasks[j] == Request(prompts[j], temperature, maxTokens)
      {
        // Building the call raises before any request is made.
        if "prompt" in kwargs {
          return Err(DuplicatePrompt);
        }
        tasks := tasks + [Request(prompts[i], temperature, maxTokens)];
      }
      // `asyncio.gather(..., return_exceptions=True)`: every outcome, in
      // the order of the tasks.
      var settled := Gather(tasks, send, decode);
      var results := ProcessResults(settled);
      forall i | 0 <= i < |prompts|
        ensures results[i] == Slot(Generate(prompts[i], temperature, maxTokens, p => send(i, p), decode))
      {
        assert settled[i] == GenerateAsync(send(i, tasks[i]), decode);
        assert settled[i] == Generate(prompts[i], temperature, maxTokens, p => send(i, p), decode);
      }
      r := Ok(results);
    }
  }

  /** The `TypeError` of a call that passes `prompt` twice. */
  const DuplicatePrompt: Exception :=
    Raised(TypeError, "OpenRouter.generate_async() got multiple values for keyword argument 'prompt'")

  /** The payload of a request: the per-call `temperature` and
      `max_tokens` when truthy, the stored ones otherwise, every other
      setting from the fields, and the extra settings over all of them. */
  lemma RequestSettings(m: Model, prompt: string, temperature: Option<real>, maxTokens: Option<int>)
    ensures var p := m.Request(prompt, temperature, maxTokens);
      ("temperature" !in m.kwargs ==>
        "temperature" in p && p["temperature"] == PReal(OrReal(temperature, m.temperature))) &&
      ("max_tokens" !in m.kwargs ==>
        "max_tokens" in p && p["max_tokens"] == PInt(OrInt(maxTokens, m.maxTokens))) &&
      ("model" !in m.kwargs ==> "model" in p && p["model"] == PStr(m.model)) &&
      ("top_p" !in m.kwargs ==> "top_p" in p && p["top_p"] == PReal(m.topP)) &&
      ("stream" !in m.kwargs ==> "stream" in p && p["stream"] == PBool(m.stream)) &&
      ("top_k" in p <==> m.topK.Some? || "top_k" in m.kwargs) &&
      ("prompt" !in m.kwargs ==> "prompt" in p && p["prompt"] == PStr(prompt)) &&
      (forall k :: k in m.kwargs ==> k in p && p[k] == m.kwargs[k])
  {
    PayloadSettings(Plain(prompt), m.model, OrInt(maxTokens, m.maxTokens),
                    OrReal(temperature, m.temperature), m.topP, m.topK, m.stream, m.kwargs);
    ExtraKeywordsWin(Plain(prompt), m.model, OrInt(maxTokens, m.maxTokens),
                     OrReal(temperature, m.temperature), m.topP, m.topK, m.stream, m.kwargs);
    PayloadPrompt(Plain(prompt), m.model, OrInt(maxTokens, m.maxTokens),
                  OrReal(temperature, m.temperature), m.topP, m.topK, m.stream, m.kwargs);
  }

  /** An explicit `0` or `0.0` override is the same as none. */
  lemma ZeroOverrideIgnored(m: Model, prompt: string)
    ensures m.Request(prompt, Some(0.0), Some(0)) == m.Request(prompt, None, None)
  {
  }

  /** A non-zero override is used as it is, even when the stored value
      differs. */
  lemma OverrideUsed(m: Model, prompt: string, t: real, n: int)
    requires t != 0.0 && n != 0
    requires "temperature" !in m.kwargs && "max_tokens" !in m.kwargs
    ensures m.Request(prompt, Some(t), Some(n))["temperature"] == PReal(t)
    ensures m.Request(prompt, Some(t), Some(n))["max_tokens"] == PInt(n)
  {
  }

  /** Failure is marked only in the text: a reply that reads `Error: ` plus
      an exception's text fills its slot exactly as that exception does. */
  lemma FailureLooksLikeReply(e: Exception)
    ensures Slot(Err(e)) == Slot(Ok(JStr("Error: " + Text(e))))
    ensures Slot(Err(e)).JStr? && |Slot(Err(e)).s| >= 7 && Slot(Err(e)).s[..7] == "Error: "
  {
  }
}
