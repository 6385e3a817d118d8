/**
 The `GoogleAssistant` object itself: the request it was built from, the
 response headers it writes, and the three values it computes on first use
 and keeps (`@_intent`, `@_arguments`, `@_conversation`).
 */
module Assistant {
  import opened Results
  import Request

  const ApiVersionHeader: string := "Google-Assistant-API-Version"
  const ApiVersion: string := "v1"

  class GoogleAssistant {
    /** `params`, read only. */
    const params: Request.Params
    /** `response.headers`. */
    var headers: map<string, string>

    var intentCache: Option<Request.Intent>
    var argumentsCache: Option<seq<Request.Argument>>
    var conversationCache: Option<Request.Conversation>

    /** A cached value is always what the request gives on first use. */
    ghost predicate Valid()
      reads this
    {
      && (intentCache.Some? ==> Request.IntentOf(params) == Ok(intentCache.value))
      && (argumentsCache.Some? ==> Request.ArgumentsOf(params) == Ok(argumentsCache.value))
      && (conversationCache.Some? ==> conversationCache.value == Request.ConversationOf(params))
    }

    /** `initialize(params, response)`: nothing is computed yet. */
    constructor (params: Request.Params, headers: map<string, string>)
      ensures Valid()
      ensures this.params == params && this.headers == headers
      ensures intentCache.None? && argumentsCache.None? && conversationCache.None?
    {
      this.params := params;
      this.headers := headers;
      intentCache := None;
      argumentsCache := None;
      conversationCache := None;
    }

    /** `intent`: a cached intent is returned as it is; otherwise it is
        computed from the request and kept, unless computing it raised. */
    method Intent() returns (r: Result<Request.Intent>)
      requires Valid()
      modifies this`intentCache
      ensures Valid()
      ensures r == Request.IntentOf(params)
      ensures old(intentCache).Some? ==> intentCache == old(intentCache)
      ensures intentCache == if r.Ok? then Some(r.value) else None
    {
      if intentCache.Some? {
        return Ok(intentCache.value);
      }
      r := Request.IntentOf(params);
      if r.Ok? {
        intentCache := Some(r.value);
      }
    }

    /** `arguments`: as `intent`, for the wrapped argument list. */
    method Arguments() returns (r: Result<seq<Request.Argument>>)
      requires Valid()
      modifies this`argumentsCache
      ensures Valid()
      ensures r == Request.ArgumentsOf(params)
      ensures old(argumentsCache).Some? ==> argumentsCache == old(argumentsCache)
      ensures argumentsCache == if r.Ok? then Some(r.value) else None
    {
      if argumentsCache.Some? {
        return Ok(argumentsCache.value);
      }
      r := Request.ArgumentsOf(params);
      if r.Ok? {
        argumentsCache := Some(r.value);
      }
    }

    /** `conversation`: never raises, so the first call always fills the cache. */
    method Conversation() returns (c: Request.Conversation)
      requires Valid()
      modifies this`conversationCache
      ensures Valid()
      ensures c == Request.ConversationOf(params)
      ensures conversationCache == Some(c)
    {
      if conversationCache.Some? {
        return conversationCache.value;
      }
      c := Request.ConversationOf(params);
      conversationCache := Some(c);
    }

    /** `respond_to`: runs the caller's block (here: whatever it does to the
        headers), stamps the protocol version, and resolves the intent the
        reply is dispatched to. The header is written even when resolving
        the intent then raises. */
    method RespondTo(block: map<string, string> -> map<string, string>) returns (r: Result<Request.Intent>)
      requires Valid()
      modifies this`headers, this`intentCache
      ensures Valid()
      ensures headers == block(old(headers))[ApiVersionHeader := ApiVersion]
      ensures ApiVersionHeader in headers && headers[ApiVersionHeader] == ApiVersion
      ensures r == Request.IntentOf(params)
      ensures old(intentCache).Some? ==> intentCache == old(intentCache)
      ensures intentCache == if r.Ok? then Some(r.value) else None
    {
      headers := block(headers);
      headers := headers[ApiVersionHeader := ApiVersion];
      r := Intent();
    }
  }
}
