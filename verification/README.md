# OpenAI query generator, modelled in Dafny

This project models the decision core of `OpenAIQueryGenerator.generate_query` in
`query_generators/openai.py`. That method turns a natural-language question into SQL through a
hosted completion service. The model covers:

- **Prompt assembly.** A chat-mode template is cut into system, user and assistant sections at
  the literal markers `### Input:` and `### Response:`. The exact model name `text-davinci-003`
  selects the legacy single-prompt mode instead.
- **The two completion invokers.** Each has a one-shot retry after a rate-limit or
  service-unavailable error.
- **The result mapping.** A reply, a timeout or an escaped exception each becomes the returned
  `query`, `reason` and `err` fields.
- **SQL extraction.** The query is the last piece of the reply split on "```sql".
- **Token accounting.**

Modules, in dependency order:

- `Wrappers` — `Option` and `Result`.
- `PyStrings` — Python's `str.split` on a non-empty literal separator, with its laws:
  - the pieces hold no separator;
  - joining the pieces gives back the text;
  - splitting a join gives back the pieces, for separator-free pieces and a separator that
    cannot overlap itself;
  - the last piece starts after the last occurrence of the separator, for a separator that
    cannot overlap itself (true of both markers and "```sql"). Without that condition it can
    fail: `"aaa".split("aa")` is `["", "a"]`, yet the last `"aa"` starts at index 1.
- `Template` — the section parse. A missing marker is the `IndexError` of indexing a one-piece
  split.
- `Prompt` — mode selection and the three role/content messages.
- `Completion` — the invokers over an abstract service outcome.
- `Tokens` — `count_tokens` over an uninterpreted encoder.
- `Extraction` — the "```sql" extraction.
- `Generator` — `generate_query` itself.

The service, the clock and the tokenizer are parameters:

- `World` gives the outcome of the first request, the outcome of the retry, and whether the
  `func_timeout` deadline fires first.
- `Encoder(model, text)` is the length of the model's tiktoken encoding of `text`.
- `Filler` is the `str.format(user_question=…, table_metadata_string=…)` call.
- The schema text is what `prune_metadata_str` returned.

The instance attribute `completion` survives between calls. It is modelled as `Option<string>`:
`None` means it was never assigned.

Some behaviours of the code may surprise a reader. The model keeps each of them:

- **The invoker is not total: a failed retry escapes it.** The retry after an overload runs
  inside the overload `except` clause, and no `try` encloses it there. Its failure therefore
  escapes the invoker, and `generate_query` reports it in `err`.
- **The legacy retry goes to the chat endpoint.** `get_nonchat_completion` retries against
  `openai.ChatCompletion`, not `openai.Completion`.
- **A permanent failure leaves no trace in `err`.** A first request that fails with anything
  other than an overload is swallowed into the empty text. `generate_query` then returns query
  `""`, reason `"-"` and an empty `err`.
- **The closing fence is kept.** Extraction keeps everything after the last "```sql". For
  "blah ```sql SELECT 1 ```" the query is " SELECT 1 ```", with the closing fence still in it.
- **A KeyError can quote a stale completion.** When a KeyError escapes, the `Completion:` part of
  `err` quotes whatever `completion` holds from an earlier call. If no earlier call assigned it,
  reading it raises AttributeError out of `generate_query`, modelled as `Fault.CompletionUnset`.

## Model

| member | source | states |
|---|---|---|
| PyStrings.FindFirst | query_generators/openai.py:144 | the search behind `str.split` finds the first occurrence of the separator, and finds none exactly when the text does not contain it |
| PyStrings.SplitPieces | query_generators/openai.py:144-146 | no piece of a split contains the separator; the split has a single piece exactly when the text does not contain the separator |
| PyStrings.JoinSplit | query_generators/openai.py:144-146 | joining the pieces of a split with the separator gives back the original text |
| PyStrings.SplitJoin | query_generators/openai.py:144-146 | for a separator that cannot overlap itself, splitting the join of separator-free pieces gives back those pieces |
| PyStrings.LastPieceAfterLastOccurrence | query_generators/openai.py:184 | the last piece of a split is the text after the last occurrence of a non-self-overlapping separator |
| PyStrings.SelfOverlapSplit | query_generators/openai.py:184 | the non-overlap condition is needed: "aaa" split on "aa" gives "" and "a", although "aa" also occurs at index 1 |
| Template.ParseFailsIffMarkerMissing | query_generators/openai.py:144-146 | the parse fails exactly when a marker is absent; a missing Input marker is reported first |
| Template.SystemSection | query_generators/openai.py:144 | the system section is the text before the first Input marker |
| Template.UserText | query_generators/openai.py:145 | the user section starts right after the first Input marker, contains neither marker and ends at the end of the text or at the next marker |
| Template.AssistantText | query_generators/openai.py:146 | the assistant section is the piece right after the first Response marker |
| Template.ParseCompose | query_generators/openai.py:144-146 | composing three sections around the markers and parsing the result gives back the sections, provided the system text holds no Input marker, the user text followed by the Response marker holds no Input marker, the system and user texts hold no Response marker, and the assistant text holds no Response marker; the assistant text may hold Input markers |
| Template.AssistantMayHoldInputMarker | query_generators/openai.py:144-146 | the template "S### Input:U### Response:A### Input:B" parses into the sections "S", "U" and "A### Input:B" |
| Prompt.ModeSelection | query_generators/openai.py:143-169 | a built request is a single prompt exactly when the model is the legacy one, and that prompt is the whole template filled in, unsplit |
| Prompt.ChatRequestFromTemplate | query_generators/openai.py:143-156 | in chat mode the request is built exactly when the template holds both markers; it is then three messages with roles system, user and assistant, whose contents are the text before the first Input marker, the filled-in text from after that marker to the next marker of either kind, and the text from after the first Response marker to the next Response marker |
| Prompt.ComposedTemplateMessages | query_generators/openai.py:143-156 | a chat template composed from three sections, under the conditions of Template.ParseCompose, yields the three role messages of exactly those sections, with the user one filled in |
| Completion.Invoke | query_generators/openai.py:34-72 | one request, plus exactly one more to the chat endpoint with the same arguments after an overload; an escape happens exactly when the first request is overloaded and the retry fails; any other first failure returns the empty text |
| Completion.ChatInvoke | query_generators/openai.py:46-67 | every chat-mode request goes to the ChatCompletion endpoint with the same messages and parameters |
| Completion.NonchatInvoke | query_generators/openai.py:86-107 | the legacy first request goes to the Completion endpoint, but its retry goes to the ChatCompletion endpoint with the same prompt |
| Completion.RetryTransparent | query_generators/openai.py:55-68 | an overload followed by a successful retry gives the same outcome as a first-attempt success with that text |
| Completion.NoRetryWithoutOverload | query_generators/openai.py:69-71 | without an overload on the first request, the retry's outcome makes no difference |
| Tokens.CountTokensByMode | query_generators/openai.py:124-132 | a non-legacy model is charged for every role tag and every content of its messages, whatever the prompt; the legacy model is charged for the prompt alone, whatever the messages |
| Tokens.MessagesTokensAppend | query_generators/openai.py:127-129 | the message-list count is additive over concatenation |
| Tokens.ChatMessageTokens | query_generators/openai.py:128-129 | a role/content message costs its role tag's tokens plus its content's tokens |
| Tokens.ChatListTokens | query_generators/openai.py:127-129 | any list of role/content messages costs the sum of its role tags' and contents' tokens |
| Tokens.ChatRequestTokens | query_generators/openai.py:126-129 | a three-message chat request costs the tokens of the three role tags and the three contents |
| Extraction.ExtractQueryAfterLastFence | query_generators/openai.py:184 | the query is a fence-free suffix of the reply; it is the whole reply exactly when the reply has no fence, otherwise it starts right after the last fence |
| Extraction.QueryAfterFence | query_generators/openai.py:184 | a fence followed by no further fence character is the last one, and the query is everything after it |
| Extraction.ClosingFenceKept | query_generators/openai.py:184 | the reply "blah ```sql SELECT 1 ```" yields " SELECT 1 ```" |
| Generator.GenerateQuery | query_generators/openai.py:134-211 | a template fault escapes exactly when the request cannot be built; query and err are never both non-empty; an empty err comes with reason "-"; the token count is that of the built request |
| Generator.RequestsSent | query_generators/openai.py:162-182 | the first request goes to the Completion endpoint exactly for the legacy model; every request carries the built request and the arguments 400, 0 and the fence stop |
| Generator.TemplateFaultFirst | query_generators/openai.py:143-146 | a chat-mode template missing a marker raises the template error whatever the service does and whatever state earlier calls left |
| Generator.LegacyNeverSplits | query_generators/openai.py:157-161 | the legacy model never raises a template error |
| Generator.TimeoutResult | query_generators/openai.py:186-189 | a deadline that fires yields err "QUERY GENERATION TIMEOUT" with empty query and reason, leaving the stored completion as it was |
| Generator.ReturnedResult | query_generators/openai.py:183-185 | a returned reply becomes the stored completion, reason "-" and empty err, with the query after the reply's last "```sql" |
| Generator.PermanentFailureLooksEmpty | query_generators/openai.py:69-72 | a non-overload first failure yields an empty query, reason "-" and no error |
| Generator.EscapedResult | query_generators/openai.py:190-198 | an escaped exception clears query and reason and reports its type and message; a KeyError adds the earlier completion, and with none the report itself raises |
| Generator.ErrorIffNotReturned | query_generators/openai.py:171-198 | err is empty exactly when the deadline did not fire and the invoker returned a text |
| Generator.RetryInvisible | query_generators/openai.py:55-68 | an overload followed by a successful retry yields the same generate_query outcome as a first-attempt success |
| Generator.TokensFromRequestOnly | query_generators/openai.py:200-203 | the token count does not depend on the service, the deadline or earlier calls |
| Generator.TokensOfTemplate | query_generators/openai.py:200-203 | the token count of the built request, which generate_query reports, is the filled-in template's count in legacy mode, and in chat mode the count of the three role tags plus the three sections with the user one filled in |
| Generator.EarlierStateIgnored | query_generators/openai.py:136-138 | state from earlier calls changes the result only when a KeyError escapes the invoker |

## Left out

- Network I/O and the `openai` client: each request's outcome is a parameter (`World`).
- Verbose printing: it has no effect on the result.
- The 5-second `time.sleep`: it affects only elapsed time. The sleep runs inside the
  `func_timeout` call, so it counts against the deadline and adds at least 5 seconds to
  `latency_seconds`. The model sees elapsed time only through `World.timedOut`, which is a free
  input, and through the left-out `latency_seconds`. With a configured timeout of 5 seconds or
  less, every overloaded first request ends in "QUERY GENERATION TIMEOUT". The model does not
  tie `timedOut` to the overload, so it does not derive that case.
- `func_timeout`'s worker thread and the wall-clock deadline: only whether the deadline fires
  before the invoker returns is modelled.
- `latency_seconds`: it is a floating-point clock difference.
- Reading the prompt file: its content is the `template` parameter.
- `prune_metadata_str`: its output is the `schema` parameter.
- `tiktoken`: token lengths come from the `Encoder` parameter, which is total. Two ways in which
  `count_tokens` raises are not modelled. `encoding_for_model` raises on an unknown model name.
  `encode` raises ValueError on text holding a special token such as `<|endoftext|>`. Such text
  may come from the question, the schema text or the template. That exception comes from lines
  200-203, after the request was sent and outside any `try`, so it escapes `generate_query`. The
  model returns a result instead.
- `str.format`: it is the `Filler` parameter, assumed total. A template whose braces make
  `format` raise is not modelled.
- Partial progress under a timeout: when the deadline fires, the requests already made are not
  recorded. The result does not depend on them.
- The constructor: it stores its arguments and `db_creds["database"]`. A missing `database` key
  raises KeyError there, before any query is generated.
