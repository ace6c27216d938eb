/**
 * The two completion invokers, get_chat_completion and
 * get_nonchat_completion (query_generators/openai.py:34-112). The service
 * itself is not modelled: what each request to it produces (a reply text,
 * or an exception raised by the call or by the lookup into the reply) is a
 * parameter, and the model records which requests were made and what the
 * invoker hands back to its caller.
 */
module Completion {
  import opened Prompt

  /** The two service errors the invokers treat as a transient overload. */
  datatype Overload = RateLimitError | ServiceUnavailableError

  /** The built-in errors a malformed reply raises when it is indexed. */
  datatype LookupFault = KeyError | IndexError | TypeError

  /**
   * A Python exception: a transient overload, a lookup into a malformed
   * reply, or an exception of any other class, named by its qualified class
   * name.
   */
  datatype PyException =
    | Overloaded(overload: Overload, msg: string)
    | Lookup(fault: LookupFault, msg: string)
    | OtherError(className: string, msg: string)

  /** The classes that have their own constructor. */
  const NamedClasses: set<string> :=
    {"openai.error.RateLimitError", "openai.error.ServiceUnavailableError", "KeyError", "IndexError", "TypeError"}

  /**
   * Each exception has one representation: `OtherError` never names a class
   * that has its own constructor. Indexing a reply raises the built-in
   * lookup errors themselves, never subclasses of them, so the KeyErrors in
   * play are exactly `Lookup(KeyError, _)`.
   */
  type Exc = e: PyException | e.OtherError? ==> e.className !in NamedClasses
    witness Lookup(KeyError, "")

  /** How Python renders `type(e)` inside an f-string. */
  function TypeRepr(e: Exc): string {
    match e
    case Overloaded(RateLimitError, _) => "<class 'openai.error.RateLimitError'>"
    case Overloaded(ServiceUnavailableError, _) => "<class 'openai.error.ServiceUnavailableError'>"
    case Lookup(KeyError, _) => "<class 'KeyError'>"
    case Lookup(IndexError, _) => "<class 'IndexError'>"
    case Lookup(TypeError, _) => "<class 'TypeError'>"
    case OtherError(name, _) => "<class '" + name + "'>"
  }

  /** `isinstance(e, KeyError)`: only the lookup fault itself is a KeyError. */
  predicate IsKeyError(e: Exc) {
    e.Lookup? && e.fault == KeyError
  }

  /**
   * What one request to the service and the lookup of the generated text in
   * its reply produce: the text, or the exception raised on the way.
   */
  datatype CallOutcome = Ok(text: string) | Raised(exc: Exc)

  /** `openai.ChatCompletion.create` or `openai.Completion.create`. */
  datatype Endpoint = ChatCompletion | TextCompletion

  /** The keyword arguments passed through unchanged to the service. */
  datatype Params = Params(maxTokens: int, temperature: int, stop: seq<string>, logitBias: map<int, int>)

  /** One request sent to the service. */
  datatype Call = Call(endpoint: Endpoint, model: string, request: Request, params: Params)

  /** The invoker either returns a text or lets an exception escape. */
  datatype InvokerOutcome = Returned(text: string) | Escaped(exc: Exc)

  /** The requests made, in order, and what the invoker produced. */
  datatype Invocation = Invocation(calls: seq<Call>, outcome: InvokerOutcome)

  /**
   * The shared control flow of both invokers. The first request goes to
   * `endpoint`; a transient overload is followed, after the pause, by one
   * more request with the same arguments, always to the ChatCompletion
   * endpoint. That retry runs inside the overload handler, where no `try`
   * encloses it, so its failure escapes. Every other
   * failure of the first request is swallowed and yields the empty text.
   * `retry` is what the second request would produce.
   */
  function Invoke(endpoint: Endpoint, model: string, request: Request, params: Params,
                  first: CallOutcome, retry: CallOutcome): (inv: Invocation)
    ensures 1 <= |inv.calls| <= 2
    ensures inv.calls[0] == Call(endpoint, model, request, params)
    ensures |inv.calls| == 2 <==> first.Raised? && first.exc.Overloaded?
    ensures |inv.calls| == 2 ==> inv.calls[1] == Call(ChatCompletion, model, request, params)
    ensures inv.outcome.Escaped? <==> first.Raised? && first.exc.Overloaded? && retry.Raised?
    ensures inv.outcome.Escaped? ==> inv.outcome.exc == retry.exc
    ensures first.Ok? ==> inv.outcome == Returned(first.text)
    ensures first.Raised? && !first.exc.Overloaded? ==> inv.outcome == Returned("")
    ensures first.Raised? && first.exc.Overloaded? && retry.Ok? ==> inv.outcome == Returned(retry.text)
  {
    var call := Call(endpoint, model, request, params);
    match first
    case Ok(text) => Invocation([call], Returned(text))
    case Raised(e) =>
      if e.Overloaded? then
        var again := Call(ChatCompletion, model, request, params);
        match retry
        case Ok(text) => Invocation([call, again], Returned(text))
        case Raised(e2) => Invocation([call, again], Escaped(e2))
      else
        Invocation([call], Returned(""))
  }

  /** get_chat_completion: the message list goes to the ChatCompletion endpoint. */
  function ChatInvoke(model: string, messages: seq<Message>, params: Params,
                      first: CallOutcome, retry: CallOutcome): (inv: Invocation)
    ensures forall c :: c in inv.calls ==> c == Call(ChatCompletion, model, ChatRequest(messages), params)
  {
    Invoke(ChatCompletion, model, ChatRequest(messages), params, first, retry)
  }

  /**
   * get_nonchat_completion: the prompt goes to the Completion endpoint,
   * but the retry after an overload goes to the ChatCompletion endpoint
   * with the same prompt.
   */
  function NonchatInvoke(model: string, prompt: string, params: Params,
                         first: CallOutcome, retry: CallOutcome): (inv: Invocation)
    ensures 1 <= |inv.calls| <= 2 && inv.calls[0] == Call(TextCompletion, model, LegacyRequest(prompt), params)
    ensures |inv.calls| == 2 ==> inv.calls[1] == Call(ChatCompletion, model, LegacyRequest(prompt), params)
  {
    Invoke(TextCompletion, model, LegacyRequest(prompt), params, first, retry)
  }

  /**
   * A transient overload followed by a successful retry gives the caller
   * the same outcome as a first-attempt success with that text.
   */
  lemma RetryTransparent(endpoint: Endpoint, model: string, request: Request, params: Params,
                         overload: Overload, msg: string, text: string, other: CallOutcome)
    ensures Invoke(endpoint, model, request, params, Raised(Overloaded(overload, msg)), Ok(text)).outcome
         == Invoke(endpoint, model, request, params, Ok(text), other).outcome
  {
  }

  /**
   * Unless the first request hit a transient overload, what the second
   * request would produce makes no difference: it is never made.
   */
  lemma NoRetryWithoutOverload(endpoint: Endpoint, model: string, request: Request, params: Params,
                               first: CallOutcome, retry1: CallOutcome, retry2: CallOutcome)
    requires !(first.Raised? && first.exc.Overloaded?)
    ensures Invoke(endpoint, model, request, params, first, retry1)
         == Invoke(endpoint, model, request, params, first, retry2)
  {
  }
}
