# TufaTooling core, modelled in Dafny

TufaTooling is a small harness for evaluating language models. A `Model` sends
prompts to the OpenRouter completion API. A benchmark scores each
solution with a marker, a callable that returns an integer score. The
`LLMJudge` rubric scores an answer against a ground truth by asking another
model and reading an integer verdict out of `<answer>` tags. Small extractors pull values out of
model output.

This project models, one Dafny module per source file:

- the extractors: `xml_tag_extractor`, `boxed` and the copies of both in
  `extractors.py`, plus `CombinedParser`;
- the decision logic of the OpenRouter client:
  - payload construction;
  - the `APIError` message;
  - status and error classification for `generate` and `generate_async`;
  - choice-content selection;
  - the streaming line decoder;
- `Model`: its settings, the truthy override fallback, and the two loops of
  `batch_generate`;
- the judge: `str.format` of its prompt, the model call, the verdict parse;
- the `benchmark` accumulation loop;
- the `Dataset` container.

Python's own behaviour is written out where the code relies on it:

- `str.find` and `str.rfind` with their `-1`, and `strip`;
- `int()` and `str()` of integers;
- `str.format` with positional and keyword fields;
- truthiness;
- the `in`, `[key]`, `[0]`, `len` and `.get` operations on decoded JSON, with
  the exception each raises on a value of the wrong type.

A raised exception is the `Err` side of a `Result`. The network, `json.loads`
and the model call are function parameters:

- `send: Payload -> Response` stands for the HTTP round trip of one call, and
  `send: (nat, Payload) -> Response` for that of the `i`-th request of a batch,
  so equal payloads may get different responses;
- `decode: string -> Result<Json, string>` stands for `json.loads`;
- a `Generator` stands for `await marker.generate(prompt)`.

`asyncio.gather` is the function `Gather`, which lists the settled outcomes in
task order.

Where the code departs from its own documentation or evident design, the model
follows the code:

- The composed extractor does not short-circuit on `None`: the code feeds
  `None` to the next parser (`Combined.NoneIsPassedOn`). After
  `xml_tag_extractor`, a `None` makes `boxed` raise `AttributeError`, which
  ends the call (`Combined.NoneBreaksNextExtractor`).
- `Dataset.filter` applies `func` to the whole list, not a predicate to each
  record.
- `benchmark` has no batching by `batch_size` and no failure isolation. The
  first marker exception ends the run (`Benchmarks.ScoresFirstFailure`), and the
  value returned is the last score over the dataset size (see Findings).
- `batch_generate` keeps every request failure in its slot. One exception still
  escapes it: a `prompt` entry among the model's extra settings clashes with the
  `prompt=` keyword of the call. That raises `TypeError` before any request is
  made.

## Model

| member | source | states |
|---|---|---|
| XmlTags.XmlTagExtractorSpec | tooling/utils/extractor/xml_tags.py:8-15 | `None` when `<tag>` never occurs. After the last `<tag>`, `None` exactly when no `</tag>` starts at or after its end. Otherwise the text from the end of the last `<tag>` to the first `</tag>` after it, with no `</tag>` between. `""` is a possible result, distinct from `None`. |
| XmlTags.XmlTagMarkerFree | tooling/utils/extractor/xml_tags.py:8-15 | an extracted value contains neither `</tag>` nor `<tag>` |
| XmlTags.XmlTagExtractor | tooling/utils/extractor/xml_tags.py:6-15 | `rfind` of `<tag>`, then `find` of `</tag>` from the end of it; `None` when either gives `-1`. What this means is stated by `XmlTagExtractorSpec` and `XmlTagRoundTrip`. |
| XmlTags.XmlTagRoundTrip | tooling/utils/extractor/xml_tags.py:8-15 | extracting from `p + "<tag>" + s + "</tag>" + q` returns `s`. Conditions: `tag` has no angle brackets, `s` holds neither marker, `q` holds no `<tag>`. |
| XmlTags.LastOpenAt | tooling/utils/extractor/xml_tags.py:8 | in that layout, `rfind` of `<tag>` is the position right after `p` |
| XmlTags.FirstCloseAt | tooling/utils/extractor/xml_tags.py:9-10 | in that layout, `find` of `</tag>` from the end of the opener is the position right after `s` |
| XmlTags.ExtractorAt | tooling/utils/extractor/xml_tags.py:8-15 | once both tags are located, the result is the slice between them |
| XmlTags.XmlTagLastAnswerWins | tooling/utils/extractor/xml_tags.py:8-10 | `"<answer>1</answer>..<answer>2</answer>"` gives `"2"` |
| XmlTags.XmlTagFirstCloseAfterLastOpen | tooling/utils/extractor/xml_tags.py:8-10 | `"<a>x<a>y</a>z</a>"` gives `"y"` |
| XmlTags.LastCloseWouldDiffer | tooling/utils/extractor/xml_tags.py:10 | in that text the last `</a>` starts at 13, so a last-open/last-close reading would give `"y</a>z"` |
| XmlTags.XmlTagEarlierCloseIgnored | tooling/utils/extractor/xml_tags.py:8-13 | a `</a>` before the last `<a>` is not used: `"</a><a>x"` gives `None` |
| Boxed.BoxedSpec | tooling/utils/extractor/boxed.py:8-14 | `None` without `boxed{`. After the last `boxed{`, `None` exactly when no `}` follows. Otherwise the text from that `boxed{` up to the first `}` after it. |
| Boxed.Boxed | tooling/utils/extractor/boxed.py:6-14 | the intended reading, `find` for `lfind`: from the last `boxed{` up to the first `}` after it, or `None`. Stated by `BoxedSpec` and `BoxedRoundTrip`. |
| Boxed.BoxedAsWritten | tooling/utils/extractor/boxed.py:6-9 | as written: `rfind` runs, then `lfind` raises `AttributeError` for every string. Stated by `BoxedLfindDefect`. |
| Boxed.BoxedShape | tooling/utils/extractor/boxed.py:8-14 | a result starts with `boxed{` and holds no `}`; it starts at an occurrence of `boxed{`, and no occurrence starts after it |
| Boxed.BoxedRoundTrip | tooling/utils/extractor/boxed.py:8-14 | `boxed(p + "boxed{" + s + "}" + q) == "boxed{" + s` when `s` holds no `}` and neither `s` nor `q` holds `boxed{` |
| Boxed.BoxedNestedCut | tooling/utils/extractor/boxed.py:9-14 | nesting is cut at the first brace: `\boxed{\frac{1}{2}}` gives `boxed{\frac{1` |
| Boxed.BoxedLfindDefect | tooling/utils/extractor/boxed.py:9-11 | as written, every call raises `AttributeError`; the intended reading gives `boxed{42` for `\boxed{42}` |
| Extractors.BoxedAsWritten | tooling/utils/extractor/extractors.py:6-14 | the copy fails exactly as `boxed.py` does: `AttributeError` for the missing `lfind`, on every input |
| Extractors.Boxed | tooling/utils/extractor/extractors.py:6-14 | the corrected copy equals `Boxed.Boxed` on every input |
| Extractors.XmlTagExtractor | tooling/utils/extractor/extractors.py:16-25 | the copy equals `xml_tags.xml_tag_extractor` on every input |
| Extractors.XmlTagCopyBetweenMarkers | tooling/utils/extractor/extractors.py:18-25 | the copy's result lies between the last opener and a closer after it, and holds neither marker |
| Extractors.BoxedCopyShape | tooling/utils/extractor/extractors.py:8-14 | the copy's `boxed` result keeps the `boxed{` prefix and holds no `}` |
| Combined.CombinedParser.constructor | tooling/utils/extractor/combined.py:10-13 | the parsers are stored as given |
| Combined.CombinedParser.Call | tooling/utils/extractor/combined.py:16-19 | the loop returns `p_n(... p_1(text))`, the same value read from the front, or the exception of the first parser that raises, after which no parser runs; with no parsers it returns its input; the stored parsers are a constant |
| Combined.PipelineSplit | tooling/utils/extractor/combined.py:17-18 | running `a + b` is running `b` on the output of `a`; an exception in `a` is the outcome and `b` never runs |
| Combined.PipelineFirstToLast | tooling/utils/extractor/combined.py:17-18 | the first parser runs first and the last one gives the result |
| Combined.PipelineSingle | tooling/utils/extractor/combined.py:17-19 | a single parser behaves exactly as that parser |
| Combined.PipelineFirstError | tooling/utils/extractor/combined.py:17-18 | the call raises exactly the exception of the first parser that raises on the output of the parsers before it, which all succeeded; without an exception every prefix of the chain succeeds |
| Combined.NoneIsPassedOn | tooling/utils/extractor/combined.py:18 | a `None` from one stage is the next stage's input, which may turn it back into a value |
| Combined.NoneBreaksNextExtractor | tooling/utils/extractor/combined.py:17-18 | chaining `xml_tag_extractor` and `boxed` on a text without the tag hands `None` to `boxed`, whose `AttributeError` is the outcome |
| Datasets.NewDataset | tooling/datasets/dataset.py:8-9 | `None` and `[]` both give an empty dataset; a non-empty list is kept as it is |
| Datasets.Dataset.Len | tooling/datasets/dataset.py:14-15 | `len(ds)` is the length of the data |
| Datasets.Dataset.Get | tooling/datasets/dataset.py:17-18 | an index in `[-len, len)` gives the element, counting from the end when negative; any other index raises `IndexError` |
| Datasets.Dataset.Filter | tooling/datasets/dataset.py:20-22 | the new dataset holds `func(data)`, or nothing when that is `None` or empty |
| Datasets.FilterKeeps | tooling/datasets/dataset.py:20-22 | filtering with a keep-if function gives `Keep` of the data: every element of the result satisfies the predicate and comes from the data, and every such element of the data is in the result; order and copies follow from `KeepSingle` and `KeepAppend` |
| Datasets.KeepSingle | tooling/datasets/dataset.py:20-22 | a one-element list keeps its element exactly when it satisfies the predicate |
| Datasets.KeepAppend | tooling/datasets/dataset.py:20-22 | keeping distributes over concatenation, so the order and the number of copies of the kept elements are preserved |
| Datasets.GetBothEnds | tooling/datasets/dataset.py:17-18 | `ds[i]` and `ds[i - len(ds)]` are the same element; `len(ds)` and `-len(ds) - 1` are out of range |
| Inference.PayloadSettings | tooling/utils/inference/inference.py:34-42 | `model`, `max_tokens`, `temperature`, `top_p` and `stream` hold the arguments unless an extra keyword replaces them. `top_k` is present exactly when given or added by an extra keyword. |
| Inference.ExtraKeywordsWin | tooling/utils/inference/inference.py:42 | every extra keyword reaches the payload with its own value |
| Inference.PayloadPrompt | tooling/utils/inference/inference.py:41-42 | a text prompt goes under `prompt` and a message list under `messages`, never both, unless an extra keyword adds the other |
| Inference.PayloadKeys | tooling/utils/inference/inference.py:32-44 | the payload's keys are the five settings, `top_k` when given, the prompt's key and the extra keywords, and nothing else |
| Inference.PreparePayload | tooling/utils/inference/inference.py:32-44 | the fixed settings, `top_k` when given, the prompt under `prompt` or `messages`, then the extra keywords over all of them. Stated by `PayloadSettings`, `ExtraKeywordsWin`, `PayloadPrompt` and `PayloadKeys`. |
| Inference.ApiErrorOf | tooling/utils/inference/inference.py:12-20 | the message is `API Error`. It is followed by ` (code)` only when the status is truthy, then by `: message` only when the message is truthy. Status and body are stored unchanged. |
| Inference.NewApiError | tooling/utils/inference/inference.py:12-20 | the step-by-step `+=` construction builds exactly that exception |
| Inference.ZeroStatusNotShown | tooling/utils/inference/inference.py:16-17 | a status of 0 is left out of the message like a missing one, but is still stored |
| Inference.StatusReadBack | tooling/utils/inference/inference.py:15-17 | the text after `API Error (` parses back to the status |
| Inference.BodyMessage | tooling/utils/inference/inference.py:77-78 | the `message` entry of the body's `error` object, when the body decodes to an object whose `error` is one |
| Inference.ErrorMessage | tooling/utils/inference/inference.py:76-80 | a body `{"error": {"message": m}}` gives `m`; the fallback when the body's dict lacks it; `HTTP <status>` when the body does not decode or a `.get` lands on a non-dict |
| Inference.ErrorMessageFallbackOnly | tooling/utils/inference/inference.py:78 | two fallbacks give different messages only when both are used |
| Inference.ChoiceContent | tooling/utils/inference/inference.py:94-101 | with a non-empty `choices`, the first choice's `message` content is preferred over its `text`. Otherwise the result is an `Unexpected response format` `APIError`. |
| Inference.ChoiceContentOfCompletion | tooling/utils/inference/inference.py:94-96 | a well-formed completion yields its content |
| Inference.GenerateSyncOutcomes | tooling/utils/inference/inference.py:88-119 | outcomes of `generate`: a streamed reply is returned unread and a completion yields its content; a decoding or transport failure becomes an `APIError` without a status |
| Inference.GenerateSync | tooling/utils/inference/inference.py:88-119 | the response handling of `generate`. Stated by `GenerateSyncOutcomes` and `GenerateSyncErrorStatus`. |
| Inference.GenerateSyncErrorStatus | tooling/utils/inference/inference.py:75-86 | status >= 400 raises `APIError` with that status, the body and the message of `ErrorMessage`: `API Error (<status>): m` for a body `{"error": {"message": m}}` with non-empty `m`. The message falls back to `Unknown error`, or to `HTTP <status>` when the body is not JSON. |
| Inference.RateLimited | tooling/utils/inference/inference.py:75-86 | a 429 reply with body `{"error": {"message": "rate limited"}}` raises `API Error (429): rate limited` in both clients |
| Inference.GenerateAsyncOutcomes | tooling/utils/inference/inference.py:149-177 | status >= 400 raises `APIError` with that status, the body and the message of `ErrorMessage`, `m` for a body `{"error": {"message": m}}`, with `HTTP <status>` as both fallbacks. A decoding failure escapes unwrapped, and a transport failure reads `Request error: ...`. |
| Inference.GenerateAsync | tooling/utils/inference/inference.py:149-177 | the response handling of `generate_async`. Stated by `GenerateAsyncOutcomes` and `ErrorStatusSyncAsync`. |
| Inference.ErrorStatusSyncAsync | tooling/utils/inference/inference.py:149-161 | on an error status both variants raise the same `APIError`, except when the body leaves the message to the fallback |
| Inference.FrameBody | tooling/utils/inference/inference.py:185 | one leading `data: ` is removed, and only that |
| Inference.LineStep | tooling/utils/inference/inference.py:181-194 | empty lines and lines that do not decode are skipped; a line that strips to `[DONE]` stops the stream; only truthy content is emitted |
| Inference.LineStepDecoded | tooling/utils/inference/inference.py:188-194 | a line whose chunk decodes emits the chunk's truthy delta content, is skipped when the content is falsy, and fails with the exception the lookup raises |
| Inference.DeltaContent | tooling/utils/inference/inference.py:191 | `data.get('choices', [{}])[0].get('delta', {}).get('content')` on a decoded chunk. Stated by `DeltaContentCases`. |
| Inference.DeltaContentCases | tooling/utils/inference/inference.py:191 | a non-object chunk raises `AttributeError`; a chunk without `choices` gives `None`; an empty `choices` raises `IndexError`; the documented shape gives the first choice's delta content |
| Inference.DecodeStream | tooling/utils/inference/inference.py:181-194 | every emitted token is truthy, and there are no more tokens than lines |
| Inference.DecodeStreamIsRun | tooling/utils/inference/inference.py:181-194 | reading the lines is running, in order, the action of each line |
| Inference.StepsAt | tooling/utils/inference/inference.py:181-194 | the `j`-th action is the action of the `j`-th line |
| Inference.RunTokensEmitted | tooling/utils/inference/inference.py:192-193 | every token of a run is emitted by one of its actions |
| Inference.RunEnds | tooling/utils/inference/inference.py:186-194 | a run ends at `[DONE]` only through a stop, with an exception only through a failure with that exception, and runs out exactly when every action skips or emits |
| Inference.StreamEnds | tooling/utils/inference/inference.py:181-194 | for the lines of a stream: it ends at `[DONE]` only if some line is `[DONE]`, with an exception only if some line raises it, runs out exactly when no line stops or raises, and every token is emitted by some line |
| Inference.ChunkLine | tooling/utils/inference/inference.py:184-193 | a line `data: {"choices": [{"delta": {"content": c}}]}` emits `c` when it is truthy and is skipped otherwise |
| Inference.ChunkStream | tooling/utils/inference/inference.py:181-194 | lines `data: {"choices": [{"delta": {"content": c_i}}]}` followed by `data: [DONE]` yield exactly the truthy `c_i`, in order, and end at `[DONE]` |
| Inference.StreamTokens | tooling/utils/inference/inference.py:181-194 | the loop with `continue` and `break` yields the tokens and the ending of `DecodeStream` |
| Inference.DecodeStreamAppend | tooling/utils/inference/inference.py:181-187 | reading two runs of lines in turn: the second run counts only if the first ran out without `[DONE]` or an error |
| Inference.DoneEndsStream | tooling/utils/inference/inference.py:186-187 | nothing after the first `[DONE]` line is read |
| Inference.SkippedLineIgnored | tooling/utils/inference/inference.py:182-194 | a skipped line can be removed without changing the tokens or the ending |
| Inference.DoneLine | tooling/utils/inference/inference.py:185-187 | `data: [DONE]` is the end marker |
| Models.OrReal | tooling/models/model.py:34 | `temperature or self.temperature`: a missing or `0.0` override falls back |
| Models.OrInt | tooling/models/model.py:35 | `max_tokens or self.max_tokens`: a missing or `0` override falls back |
| Models.Model.constructor | tooling/models/model.py:9-25 | each argument is kept in the field of the same name |
| Models.RequestSettings | tooling/models/model.py:31-39 | the request carries the overrides or stored values for `temperature` and `max_tokens`, and `model`, `top_p`, `top_k` and `stream` from the fields. The prompt goes under `prompt`, and every extra setting keeps its value. |
| Models.Model.Request | tooling/models/model.py:31-39 | the payload of one request. Stated by `RequestSettings`, `ZeroOverrideIgnored` and `OverrideUsed`. |
| Models.Model.Generate | tooling/models/model.py:29-40 | `generate`: the keyword clash, or the provider's asynchronous call on the request. Its outcomes are those of `GenerateAsync`; see `BatchGenerate`. |
| Models.ZeroOverrideIgnored | tooling/models/model.py:34-35 | explicit `0.0` and `0` overrides give the same request as none |
| Models.OverrideUsed | tooling/models/model.py:34-35 | a non-zero override is used as it is |
| Models.Gather | tooling/models/model.py:61 | one outcome per task, in task order, failures included; task `j` gets its own round trip |
| Models.ProcessResults | tooling/models/model.py:64-72 | slot `i` is the reply, or `Error: ` followed by the exception's text |
| Models.Model.BatchGenerate | tooling/models/model.py:42-72 | one slot per prompt, in prompt order. Slot `i` is what `generate` would give for prompt `i` over its own round trip, an exception turned into its `Error: ` text. Only the duplicate `prompt` keyword escapes, and only when there is a prompt. |
| Models.FailureLooksLikeReply | tooling/models/model.py:66-70 | a reply reading `Error: ...` fills its slot exactly as the failure it imitates |
| Strings.RFind | tooling/utils/extractor/xml_tags.py:8 | `rfind` is `-1` exactly when there is no occurrence; otherwise it is the last occurrence |
| Strings.Find | tooling/utils/extractor/xml_tags.py:10 | `find` from a start is the first occurrence at or after it, or `-1` when there is none |
| Strings.StripPadded | tooling/utils/inference/inference.py:186 | whitespace around a text whose ends are not whitespace is exactly what `strip()` removes |
| Strings.Strip | tooling/utils/inference/inference.py:186 | `strip()` is a slice of its input whose cut-off ends are all whitespace and whose own ends are not, so exactly the leading and trailing whitespace is removed |
| Numerals.IntToStringDigits | tooling/utils/inference/inference.py:17 | `str(n)`: a `-` exactly for negative `n`, then at least one decimal digit, no leading `0` unless the digits are `0`, and the digits' value is `abs(n)` |
| Numerals.IntToString | tooling/utils/inference/inference.py:17 | `str(n)` for an integer. Stated by `IntToStringDigits` and `ParseIntRoundTrip`. |
| Numerals.ParseIntRoundTrip | tooling/benchmarking/rubric/llm_judge.py:50 | `int(str(n)) == n` for every integer |
| Numerals.ParseIntNeedsDigit | tooling/benchmarking/rubric/llm_judge.py:50 | text without a digit is never an integer |
| Numerals.ParseIntPadded | tooling/benchmarking/rubric/llm_judge.py:50 | whitespace around the digits, leading zeros and a `+` or `-` sign are accepted, and the value is that of the digits, negated for `-` |
| Numerals.ParseIntRejects | tooling/benchmarking/rubric/llm_judge.py:50 | a character of the stripped text that is neither a digit nor a leading sign gives `None`, as in `1x` and `1.5` |
| Numerals.ParseInt | tooling/benchmarking/rubric/llm_judge.py:50 | `int(s)`: optional sign and decimal digits inside whitespace, `None` for the `ValueError`. Stated by `ParseIntRoundTrip`, `ParseIntPadded`, `ParseIntRejects` and `ParseIntNeedsDigit`. |
| Json.Lookup | tooling/utils/inference/inference.py:94 | a key is found exactly when some entry has it, and the value is that of the last entry with the key, as a decoded dict keeps the last duplicate |
| Json.In | tooling/utils/inference/inference.py:94 | `key in v` looks up a dict's keys, a string's substrings and a list's elements; other types raise `TypeError` |
| Json.Item | tooling/utils/inference/inference.py:96 | `v[key]` succeeds exactly on a dict holding the key; a missing key raises `KeyError` |
| Json.First | tooling/utils/inference/inference.py:96 | `v[0]` is the first element of a non-empty list or string |
| Json.Len | tooling/utils/inference/inference.py:94 | `len(v)` is defined on lists, strings and dicts, and is positive exactly when the value is truthy |
| Json.Get | tooling/utils/inference/inference.py:78 | `.get(key, default)` exists only on a dict, and gives the default for a missing key |
| LlmJudge.Field | tooling/benchmarking/rubric/llm_judge.py:42 | a keyword field is filled from the keyword arguments, or raises `KeyError` |
| LlmJudge.FormatTwoFields | tooling/benchmarking/rubric/llm_judge.py:42 | a template with two keyword fields raises `KeyError` for the first missing keyword, and otherwise puts both values in place |
| LlmJudge.Format | tooling/benchmarking/rubric/llm_judge.py:42 | `str.format` of a template. Stated by `FormatLiteral`, `FormatTwoFields`, `LiteralOnly`, `PositionalFormatFails` and `KeywordFormat`. |
| LlmJudge.PositionalFormatFails | tooling/benchmarking/rubric/llm_judge.py:9-19 | `PROMPT.format(ground_truth, answer)` raises `KeyError('ground_truth')` |
| LlmJudge.KeywordFormat | tooling/benchmarking/rubric/llm_judge.py:9-19 | with keyword arguments the prompt holds the ground truth and the answer in their places |
| LlmJudge.VerdictAsWritten | tooling/benchmarking/rubric/llm_judge.py:47-54 | a missing tag escapes as `TypeError` from `int(None)`. A present tag gives its integer, or `JudgeError`. A reply that is not a string has no `rfind`. |
| LlmJudge.Verdict | tooling/benchmarking/rubric/llm_judge.py:47-54 | as intended, every reply without an integer verdict is a `JudgeError`; a verdict agrees with the as-written one |
| LlmJudge.MissingTagDefect | tooling/benchmarking/rubric/llm_judge.py:47-52 | an empty reply gives `TypeError` as written and `JudgeError` as intended |
| LlmJudge.VerdictReadsLastAnswer | tooling/benchmarking/rubric/llm_judge.py:47-56 | the score is the integer in the last `<answer>` tag, unclamped, both as written and as intended |
| LlmJudge.LLMJudge.constructor | tooling/benchmarking/rubric/llm_judge.py:28-33 | a fresh `Model("gpt-4o-mini")` with the default settings when no marker is given, else the given one; the batch size is stored |
| LlmJudge.LLMJudge.CallAsWritten | tooling/benchmarking/rubric/llm_judge.py:36-56 | `__call__` as written. Stated by `CallAsWrittenFails`. |
| LlmJudge.LLMJudge.Call | tooling/benchmarking/rubric/llm_judge.py:36-56 | `__call__` with keyword formatting. Stated by `CallAsksChosenModel`, `PerCallModelUsed` and `CallScoresLastAnswer`. |
| LlmJudge.CallAsWrittenFails | tooling/benchmarking/rubric/llm_judge.py:42 | as written every call raises `KeyError` before any model is asked |
| LlmJudge.CallAsksChosenModel | tooling/benchmarking/rubric/llm_judge.py:36-56 | as intended, a call asks the chosen model with the filled prompt, passes a failure on, and otherwise takes the verdict of the reply |
| LlmJudge.PerCallModelUsed | tooling/benchmarking/rubric/llm_judge.py:38 | with a per-call model, the stored marker and the batch size play no part: any two judges give the same result |
| LlmJudge.CallScoresLastAnswer | tooling/benchmarking/rubric/llm_judge.py:36-56 | a judge replying `...<answer>n</answer>` scores `n` |
| Benchmarks.Scores | tooling/benchmarking/benchmark/benchmark.py:22-24 | on success, one score per solution, each the marker's value for it |
| Benchmarks.ScoresFirstFailure | tooling/benchmarking/benchmark/benchmark.py:22-23 | a failed run fails with the error of the first solution the marker raises on |
| Benchmarks.ScoresPrefixError | tooling/benchmarking/benchmark/benchmark.py:22-23 | a failure on a prefix is the failure of the whole run |
| Benchmarks.BenchmarkAsWritten | tooling/benchmarking/benchmark/benchmark.py:17-26 | as written: no solutions give the generation call's `TypeError`; a marker exception propagates; an empty dataset raises `ZeroDivisionError`; otherwise the result is the last score over the dataset size |
| Benchmarks.MeanScore | tooling/benchmarking/benchmark/benchmark.py:21-26 | the intended mean fails exactly when the as-written value fails, with the same error; otherwise the mean times the dataset size is the total of the scores |
| Benchmarks.Benchmark | tooling/benchmarking/benchmark/benchmark.py:17-26 | the loop returns the as-written value, and `total` ends as the sum of the scores |
| Benchmarks.MeanIsFraction | tooling/benchmarking/benchmark/benchmark.py:21-26 | with 0/1 scores and no more solutions than entries, the mean lies in `[0, 1]` |
| Benchmarks.LastScoreDefect | tooling/benchmarking/benchmark/benchmark.py:26 | scores 1, 0, 1, 1 over four entries return 0.25 as written, with a mean of 0.75 |
| Benchmarks.LengthsNotCompared | tooling/benchmarking/benchmark/benchmark.py:22-26 | the number of solutions is never checked against the dataset size: two scores of 1 over one entry give a mean of 2 |

## Left out

- The HTTP transport (`requests.post`, the `aiohttp` session, the headers, the API-key lookup in `OpenRouter.__init__` and its `ValueError`, the module-level `generate` and `generate_async` wrappers) is network I/O: a response is the parameter `Response` and a request is the function `send`.
- `json.loads` and `response.json()` are the `decode` parameter. JSON numbers are integers only: floating point is not modelled.
- `aiohttp`'s content-type check in `response.json()` is not modelled. It raises a `ClientError` that would be wrapped as `Request error: ...`. The model treats every non-decoding body as a `JSONDecodeError`.
- The synchronous client's handling of a `RequestException` that carries a response (inference.py:105-116) is not modelled. `requests` does raise such exceptions: `TooManyRedirects` carries the last 3xx response, which is truthy, so that branch runs. The model's `GenerateSync` covers only the transport failure without a response and the decode failure.
- Json.Repr: strings are quoted without Python's escaping rules, so `str()` of a decoded value matches Python only for text without quotes or backslashes. An object keeps every entry of a duplicated key, so `Unexpected response format: {data}` lists each duplicate, where the Python dict shows only the last value.
- Numerals.ParseInt: `int()` is ASCII decimal with an optional sign and surrounding whitespace. Underscores, Unicode digits and other whitespace are not modelled.
- LlmJudge.Field: `str.format` covers only plain fields (`{}`, `{0}`, `{name}`) and doubled braces. Conversions, format specs, attribute and index lookups are not modelled, because the prompt uses none.
- `asyncio` concurrency is not modelled: requests are independent, each with its own round trip `send(i, payload)`, and `Gather` lists the outcomes in task order.
- `temperature` and `top_p` are `real`. Only their truthiness matters to the code.
- `logging.warn` (llm_judge.py:53) is not modelled: it only logs, and it is a deprecated alias of `logging.warning`.
- The judge passes its stored marker as the `temperature` argument (llm_judge.py:44). The model call is the parameter `generate` and does not see that argument. With it, the payload would hold a `Model` object, which JSON encoding does not accept.
- The return annotation `logging.Any` (llm_judge.py:36) names nothing: the `logging` module has no `Any`, and llm_judge.py does not defer its annotations. Where annotations are evaluated when the function is defined (every Python before 3.14), importing the module raises `AttributeError`, and no judge exists. The model assumes deferred annotations (PEP 649, Python 3.14), where the annotation is never evaluated.
- `Dataset.__init__`'s annotation `List[]` (dataset.py:8) is a syntax error. The model gives the evident intent, a list or `None`.
- `Dataset.sort` (dataset.py:24-25) is a stub that returns `None`. A `Dataset` here is a value, so there is nothing for it to change.
- `__getitem__` with a slice is not modelled, because the core only indexes with integers.
- The generation branch of `benchmark` (benchmark.py:18) is only an error outcome. `batch_generate` takes no `batch_size` keyword, so the call raises `TypeError` before anything runs. `system_prompt` is never read.
- `stream_tokens_async` decodes each line from UTF-8 first (inference.py:202). Lines here are already text, so both streaming loops are the one `StreamTokens`. Two differences are therefore not modelled: a line that is not valid UTF-8 raises `UnicodeDecodeError` out of the async loop, and the async loop's `str.strip` (inference.py:205) also removes Unicode whitespace, where `Strings.Strip` removes the ASCII whitespace of `bytes.strip`.
- The marker is modelled as `benchmark` calls it (benchmark.py:23): a synchronous function of the solution alone that returns an integer score or raises. `RubricProtocol` (rubric.py:15) and `LLMJudge.__call__` are instead coroutines over `(answer, ground_truth)`. Passed as the marker, such a rubric raises `TypeError` for the missing `ground_truth`, and no ground truth from the dataset ever reaches it; a one-argument coroutine would return an unawaited coroutine object, not a score. The model does not connect `LLMJudge` to `Benchmark`.
- Benchmarks.MeanScore: `score/len(dataset)` is a Python float, modelled as an exact `real`; rounding is not modelled.
- Models.RequestSettings: its conditions that `temperature`, `max_tokens`, `model`, `top_p` and `stream` are not extra settings always hold in Python. These are named parameters of `Model.__init__`, so `**kwargs` never receives them.

## Findings

| source | as written | input that shows it | evidently intended | confidence | as-written member | corrected member |
|---|---|---|---|---|---|---|
| tooling/utils/extractor/boxed.py:9 | `text.lfind("}", index_start)`: `str` has no `lfind`, so every call raises `AttributeError` | `\boxed{42}` | `text.find("}", index_start)`, giving `boxed{42` | high, not executed | Boxed.BoxedLfindDefect | Boxed.BoxedRoundTrip |
| tooling/utils/extractor/extractors.py:9 | the same `lfind` call in the copy | `\boxed{42}` | `find`, as above | high, not executed | Extractors.BoxedAsWritten | Extractors.BoxedCopyShape |
| tooling/benchmarking/rubric/llm_judge.py:42 | `PROMPT.format(ground_truth, answer)` passes positional arguments to keyword fields and raises `KeyError` | any call | `PROMPT.format(ground_truth=ground_truth, answer=answer)` | high, not executed | LlmJudge.CallAsWrittenFails | LlmJudge.CallAsksChosenModel |
| tooling/benchmarking/rubric/llm_judge.py:50-52 | a reply without `<answer>` gives `int(None)`, whose `TypeError` the `except ValueError` does not catch | reply `""` | `JudgeError`, as for any reply without an integer verdict | high, not executed | LlmJudge.MissingTagDefect | LlmJudge.VerdictReadsLastAnswer |
| tooling/benchmarking/benchmark/benchmark.py:26 | returns `score/len(dataset)`: the last score, not the total | scores 1, 0, 1, 1 over four entries: 0.25 | `total/len(dataset)`: 0.75 | high, not executed | Benchmarks.LastScoreDefect | Benchmarks.MeanIsFraction |
