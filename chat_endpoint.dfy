/** The decision part of POST /api/chat (main.py:152-188): body validation, the per-client
    rate limit, then the model fallback and the message conversion handed to the completion API. */
module ChatEndpoint {
  import opened Options
  import opened RateLimit
  import opened ChatSchema

  /** The key the rate limiter uses: the client's host, or "unknown" when the connection has none. */
  function ClientKey(host: Option<string>): (key: string)
    ensures host.Some? ==> key == host.value
    ensures host.None? ==> key == "unknown"
  {
    host.GetOr("unknown")
  }

  /** How a chat request ends before any call to the completion API. */
  datatype Outcome =
    | Unprocessable                       // a field constraint failed: HTTP 422, the handler never runs
    | TooManyRequests                     // the client is over its limit: HTTP 429
    | Forward(model: string, messages: seq<ApiMessage>, maxTokens: Option<int>)

  /** Handles a chat request arriving at time `now` from `host`. The body is validated before the
      handler runs, so an invalid body does not touch the limiter; a valid one is counted
      against the client's window and, when accepted, forwarded with its model normalized. */
  method HandleChat(limiter: RateLimiter, raw: RawChatRequest, host: Option<string>, now: int, maxTokensCap: int)
    returns (outcome: Outcome)
    requires limiter.Valid()
    modifies limiter`store
    ensures limiter.Valid()
    ensures Validate(raw, maxTokensCap).None? ==> outcome == Unprocessable && limiter.store == old(limiter.store)
    ensures Validate(raw, maxTokensCap).Some? ==>
      var key := ClientKey(host);
      var kept := Prune(old(limiter.History(key)), now, limiter.period);
      var request := Validate(raw, maxTokensCap).value;
      if |kept| >= limiter.limit then
        outcome == TooManyRequests && limiter.store == old(limiter.store)[key := kept]
      else
        && outcome == Forward(NormalizeModel(request.model), ToApiMessages(request.messages), request.maxTokens)
        && limiter.store == old(limiter.store)[key := kept + [now]]
  {
    var validated := Validate(raw, maxTokensCap);
    if validated.None? {
      return Unprocessable;
    }
    var request := validated.value;
    var allowed := limiter.CheckRateLimit(ClientKey(host), now);
    if !allowed {
      return TooManyRequests;
    }
    // `request.model` is overwritten by the fallback before the messages are converted
    request := request.(model := Some(NormalizeModel(request.model)));
    var messages := ToApiMessages(request.messages);
    return Forward(request.model.value, messages, request.maxTokens);
  }
}
