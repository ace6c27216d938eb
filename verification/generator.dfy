/**
 * One call of generate_query (query_generators/openai.py:134-211): build
 * the request, run the invoker under the deadline, map what happened to
 * the result fields, and count the prompt's tokens. The service, the
 * clock and the tokenizer are parameters: `World` says what each request
 * to the service produces and whether the deadline fires first.
 */
module Generator {
  import opened Wrappers
  import opened PyStrings
  import opened Template
  import opened Prompt
  import opened Completion
  import opened Tokens
  import opened Extraction

  /**
   * What the outside world does during one call: the outcome of the first
   * request, the outcome the retry would have, and whether func_timeout's
   * deadline expires before the invoker returns.
   */
  datatype World = World(first: CallOutcome, retry: CallOutcome, timedOut: bool)

  /** The returned dict, without the wall-clock latency. */
  datatype QueryResult = QueryResult(query: string, reason: string, err: string, tokensUsed: nat)

  /**
   * The result and the instance's `completion` attribute afterwards
   * (None while it has never been assigned).
   */
  datatype Generation = Generation(result: QueryResult, completion: Option<string>)

  /**
   * An exception escaping generate_query itself: the template split's
   * IndexError, or the AttributeError of reading a never-assigned
   * `completion` while reporting a KeyError.
   */
  datatype Fault = TemplateFault(error: TemplateError) | CompletionUnset

  const TimeoutError: string := "QUERY GENERATION TIMEOUT"
  const ErrorPrefix: string := "QUERY GENERATION ERROR: "
  const CompletionLabel: string := ", Completion: "

  /** The arguments generate_query passes to either invoker: 400 tokens, temperature 0, stop at a fence. */
  const GenerationParams: Params := Params(400, 0, ["```"], map[])

  /** `f"QUERY GENERATION ERROR: {type(e)}, {e}"`. */
  function ErrorText(e: Exc): string {
    ErrorPrefix + TypeRepr(e) + ", " + e.msg
  }

  /** The token count of the request, as count_tokens is called on lines 200-203. */
  function RequestTokens(model: string, req: Request, enc: Encoder): nat {
    match req
    case LegacyRequest(prompt) => CountTokens(model, [], prompt, enc)
    case ChatRequest(messages) => CountTokens(model, messages, "", enc)
  }

  /** The invoker generate_query picks for the request's mode. */
  function RunInvoker(model: string, req: Request, world: World): Invocation {
    match req
    case LegacyRequest(prompt) => NonchatInvoke(model, prompt, GenerationParams, world.first, world.retry)
    case ChatRequest(messages) => ChatInvoke(model, messages, GenerationParams, world.first, world.retry)
  }

  /**
   * generate_query. The question's schema text is what
   * `prune_metadata_str(question, db_name)` returned; `previous` is the
   * instance's `completion` attribute before the call. The result's query,
   * reason and err depend only on this call, apart from a KeyError report,
   * which quotes `previous` (see `EarlierStateIgnored`).
   */
  function GenerateQuery(model: string, template: string, question: string, schema: string,
                         fill: Filler, enc: Encoder, world: World, previous: Option<string>)
    : (r: Result<Generation, Fault>)
    ensures r.Failure? && r.error.TemplateFault? <==> BuildRequest(model, template, question, schema, fill).Failure?
    ensures r.Success? ==> r.value.result.query == "" || r.value.result.err == ""
    ensures r.Success? && r.value.result.err == "" ==> r.value.result.reason == "-"
    ensures r.Success? ==> r.value.result.tokensUsed == RequestTokens(model, BuildRequest(model, template, question, schema, fill).value, enc)
  {
    match BuildRequest(model, template, question, schema, fill)
    case Failure(e) => Failure(TemplateFault(e))
    case Success(req) =>
      var tokens := RequestTokens(model, req, enc);
      if world.timedOut then
        Success(Generation(QueryResult("", "", TimeoutError, tokens), previous))
      else
        match RunInvoker(model, req, world).outcome
        case Returned(text) =>
          Success(Generation(QueryResult(ExtractQuery(text), "-", "", tokens), Some(text)))
        case Escaped(e) =>
          if IsKeyError(e) then
            match previous
            case None => Failure(CompletionUnset)
            case Some(c) =>
              Success(Generation(QueryResult("", "", ErrorText(e) + CompletionLabel + c, tokens), previous))
          else
            Success(Generation(QueryResult("", "", ErrorText(e), tokens), previous))
  }

  /**
   * The first request goes to the Completion endpoint exactly for the
   * legacy model; every request carries the built request and the
   * generation parameters, and a second one goes to the ChatCompletion
   * endpoint.
   */
  lemma RequestsSent(model: string, req: Request, world: World)
    requires req.LegacyRequest? <==> model == LegacyModel
    ensures var calls := RunInvoker(model, req, world).calls;
      && 1 <= |calls| <= 2
      && (calls[0].endpoint == TextCompletion <==> model == LegacyModel)
      && (|calls| == 2 ==> calls[1].endpoint == ChatCompletion)
      && (forall c :: c in calls ==> c.model == model && c.request == req && c.params == GenerationParams)
  {
    var calls := RunInvoker(model, req, world).calls;
    assert calls == Invoke(if req.LegacyRequest? then TextCompletion else ChatCompletion,
                           model, req, GenerationParams, world.first, world.retry).calls;
  }

  /**
   * A template missing a marker makes generate_query raise before any
   * request is made, whatever the service and the instance state.
   */
  lemma TemplateFaultFirst(model: string, template: string, question: string, schema: string,
                           fill: Filler, enc: Encoder, w1: World, w2: World, p1: Option<string>, p2: Option<string>)
    requires model != LegacyModel && ParseTemplate(template).Failure?
    ensures GenerateQuery(model, template, question, schema, fill, enc, w1, p1)
         == GenerateQuery(model, template, question, schema, fill, enc, w2, p2)
         == Failure(TemplateFault(ParseTemplate(template).error))
  {
  }

  /** The legacy model never raises a template fault: the template is not split. */
  lemma LegacyNeverSplits(template: string, question: string, schema: string,
                          fill: Filler, enc: Encoder, world: World, previous: Option<string>)
    ensures var r := GenerateQuery(LegacyModel, template, question, schema, fill, enc, world, previous);
      r.Failure? ==> r.error == CompletionUnset
  {
  }

  /**
   * A deadline that fires yields the timeout error with empty query and
   * reason, and leaves the instance's completion as it was.
   */
  lemma TimeoutResult(model: string, template: string, question: string, schema: string,
                      fill: Filler, enc: Encoder, world: World, previous: Option<string>)
    requires world.timedOut && BuildRequest(model, template, question, schema, fill).Success?
    ensures var r := GenerateQuery(model, template, question, schema, fill, enc, world, previous);
      && r.Success?
      && r.value.result.query == "" && r.value.result.reason == ""
      && r.value.result.err == TimeoutError
      && r.value.completion == previous
  {
  }

  /**
   * When the invoker returns a text in time, the text becomes the
   * instance's completion, the reason is "-", the error is empty and the
   * query is what follows the text's last "```sql" fence (or the whole
   * text when it has none).
   */
  lemma ReturnedResult(model: string, template: string, question: string, schema: string,
                       fill: Filler, enc: Encoder, world: World, previous: Option<string>, text: string)
    requires !world.timedOut
    requires BuildRequest(model, template, question, schema, fill).Success?
    requires RunInvoker(model, BuildRequest(model, template, question, schema, fill).value, world).outcome == Returned(text)
    ensures var r := GenerateQuery(model, template, question, schema, fill, enc, world, previous);
      && r.Success?
      && r.value.result.reason == "-" && r.value.result.err == ""
      && r.value.completion == Some(text)
      && var q := r.value.result.query;
      && |q| <= |text| && text[|text| - |q|..] == q && !Contains(q, SqlFence)
      && (q == text <==> !Contains(text, SqlFence))
      && (Contains(text, SqlFence) ==> LastOccurrence(text, SqlFence, |text| - |q| - |SqlFence|))
  {
    ExtractQueryAfterLastFence(text);
  }

  /**
   * A first request that fails with anything but an overload is swallowed
   * by the invoker: generate_query reports success with an empty query and
   * no error.
   */
  lemma PermanentFailureLooksEmpty(model: string, template: string, question: string, schema: string,
                                   fill: Filler, enc: Encoder, world: World, previous: Option<string>)
    requires !world.timedOut && world.first.Raised? && !world.first.exc.Overloaded?
    requires BuildRequest(model, template, question, schema, fill).Success?
    ensures var r := GenerateQuery(model, template, question, schema, fill, enc, world, previous);
      && r.Success?
      && r.value.result.query == "" && r.value.result.reason == "-" && r.value.result.err == ""
      && r.value.completion == Some("")
  {
    ExtractQueryAfterLastFence("");
  }

  /**
   * An exception escaping the invoker (a failed retry) clears query and
   * reason and reports the exception's type and message; a KeyError also
   * reports the instance's completion from an earlier call, and with none
   * the report itself raises.
   */
  lemma EscapedResult(model: string, template: string, question: string, schema: string,
                      fill: Filler, enc: Encoder, world: World, previous: Option<string>, e: Exc)
    requires !world.timedOut
    requires BuildRequest(model, template, question, schema, fill).Success?
    requires RunInvoker(model, BuildRequest(model, template, question, schema, fill).value, world).outcome == Escaped(e)
    ensures var r := GenerateQuery(model, template, question, schema, fill, enc, world, previous);
      && (r.Failure? <==> IsKeyError(e) && previous.None?)
      && (r.Failure? ==> r.error == CompletionUnset)
      && (r.Success? ==>
            && r.value.result.query == "" && r.value.result.reason == ""
            && r.value.completion == previous
            && var err := r.value.result.err;
            && |ErrorText(e)| <= |err| && err[..|ErrorText(e)|] == ErrorText(e)
            && (IsKeyError(e) ==> err[|ErrorText(e)|..] == CompletionLabel + previous.value)
            && (!IsKeyError(e) ==> err == ErrorText(e)))
  {
    var r := GenerateQuery(model, template, question, schema, fill, enc, world, previous);
    if r.Success? && IsKeyError(e) {
      var err := r.value.result.err;
      assert err == ErrorText(e) + (CompletionLabel + previous.value);
    }
  }

  /**
   * The error field is empty exactly when the deadline did not fire and
   * the invoker returned a text.
   */
  lemma ErrorIffNotReturned(model: string, template: string, question: string, schema: string,
                            fill: Filler, enc: Encoder, world: World, previous: Option<string>)
    requires GenerateQuery(model, template, question, schema, fill, enc, world, previous).Success?
    ensures GenerateQuery(model, template, question, schema, fill, enc, world, previous).value.result.err == ""
        <==> !world.timedOut
             && RunInvoker(model, BuildRequest(model, template, question, schema, fill).value, world).outcome.Returned?
  {
    var e := RunInvoker(model, BuildRequest(model, template, question, schema, fill).value, world).outcome;
    if !world.timedOut && e.Escaped? {
      assert |ErrorPrefix| <= |ErrorText(e.exc)|;
    }
  }

  /**
   * A transient overload followed by a successful retry is invisible:
   * generate_query produces what a first-attempt success with the same
   * text produces.
   */
  lemma RetryInvisible(model: string, template: string, question: string, schema: string,
                       fill: Filler, enc: Encoder, previous: Option<string>,
                       overload: Overload, msg: string, text: string, other: CallOutcome)
    ensures GenerateQuery(model, template, question, schema, fill, enc,
                          World(Raised(Overloaded(overload, msg)), Ok(text), false), previous)
         == GenerateQuery(model, template, question, schema, fill, enc,
                          World(Ok(text), other, false), previous)
  {
  }

  /**
   * The token count does not depend on the service, the deadline or the
   * instance state: it is the count of the request that was built.
   */
  lemma TokensFromRequestOnly(model: string, template: string, question: string, schema: string,
                              fill: Filler, enc: Encoder, w1: World, w2: World, p1: Option<string>, p2: Option<string>)
    requires GenerateQuery(model, template, question, schema, fill, enc, w1, p1).Success?
    requires GenerateQuery(model, template, question, schema, fill, enc, w2, p2).Success?
    ensures GenerateQuery(model, template, question, schema, fill, enc, w1, p1).value.result.tokensUsed
         == GenerateQuery(model, template, question, schema, fill, enc, w2, p2).value.result.tokensUsed
         == RequestTokens(model, BuildRequest(model, template, question, schema, fill).value, enc)
  {
  }

  /**
   * The token count reported by generate_query (see the tokens clause of
   * `GenerateQuery`): in chat mode it covers the role tags and the three
   * section texts, the user text after filling in; in legacy mode it is
   * the filled-in template's count.
   */
  lemma TokensOfTemplate(model: string, template: string, question: string, schema: string,
                         fill: Filler, enc: Encoder)
    requires BuildRequest(model, template, question, schema, fill).Success?
    ensures var n := RequestTokens(model, BuildRequest(model, template, question, schema, fill).value, enc);
      && (model == LegacyModel ==> n == enc(model, fill(template, question, schema)))
      && (model != LegacyModel ==>
            var sec := ParseTemplate(template).value;
            n == enc(model, "system") + enc(model, sec.system)
               + enc(model, "user") + enc(model, fill(sec.user, question, schema))
               + enc(model, "assistant") + enc(model, sec.assistant))
  {
    if model != LegacyModel {
      var sec := ParseTemplate(template).value;
      ChatRequestTokens(model, sec.system, fill(sec.user, question, schema), sec.assistant, enc);
    }
  }

  /**
   * Per-call reset: the instance state left by earlier calls affects the
   * outcome only when a KeyError escapes the invoker, whose report quotes
   * the earlier completion.
   */
  lemma EarlierStateIgnored(model: string, template: string, question: string, schema: string,
                            fill: Filler, enc: Encoder, world: World, p1: Option<string>, p2: Option<string>)
    requires BuildRequest(model, template, question, schema, fill).Success?
    requires var o := RunInvoker(model, BuildRequest(model, template, question, schema, fill).value, world).outcome;
      world.timedOut || !(o.Escaped? && IsKeyError(o.exc))
    ensures GenerateQuery(model, template, question, schema, fill, enc, world, p1).Success?
    ensures GenerateQuery(model, template, question, schema, fill, enc, world, p1).value.result
         == GenerateQuery(model, template, question, schema, fill, enc, world, p2).value.result
  {
  }
}
