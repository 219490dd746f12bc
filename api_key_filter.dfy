/**
 * ApiKeyAuthFilter: every request whose path no whitelist pattern matches must
 * carry a configured key in the X-API-KEY header; CORS preflight (OPTIONS)
 * requests are let through without one. A rejected request gets 401 with a
 * fixed JSON body and goes no further down the filter chain.
 */
module ApiKeyFilter {
  import opened Wrappers
  import opened Strings

  const HeaderName := "X-API-KEY"
  const PreflightMethod := "OPTIONS"
  const UnauthorizedStatus := 401
  const JsonContentType := "application/json"
  const UnauthorizedBody := "{\"error\":\"Unauthorized\",\"message\":\"API key missing or invalid\"}"

  /** The configured keys as the filter receives them: the list may be null, and so may its entries. */
  type KeyList = Option<seq<Option<string>>>

  /** The stream's `filter(Objects::nonNull).anyMatch(k -> k.equals(key))`. */
  function AnyEquals(keys: seq<Option<string>>, key: string): (r: bool)
    ensures r <==> Some(key) in keys
  {
    if keys == [] then false
    else keys[0] == Some(key) || AnyEquals(keys[1..], key)
  }

  /**
   * `isValidKey`: a presented key is accepted exactly when it is present, not
   * blank, and equal (case-sensitively, untrimmed) to some non-null configured
   * key. A null or empty key list accepts nothing.
   */
  function IsValidKey(key: Option<string>, validApiKeys: KeyList): (r: bool)
    ensures r <==> key.Some? && !IsBlank(key.value) && validApiKeys.Some? && Some(key.value) in validApiKeys.value
  {
    if key.None? || IsBlank(key.value) then false
    else if validApiKeys.None? || validApiKeys.value == [] then false
    else AnyEquals(validApiKeys.value, key.value)
  }

  /** What the filter reads of a request: method, path and the X-API-KEY header. */
  datatype Request = Request(httpMethod: string, uri: string, apiKey: Option<string>)

  /** A preflight request, recognised in any case. */
  predicate IsPreflight(request: Request) {
    EqualsIgnoreCase(PreflightMethod, request.httpMethod)
  }

  /** The part of the servlet response the filter writes. */
  class Response {
    var status: int
    var contentType: Option<string>
    var body: string

    constructor ()
      ensures status == 200 && contentType == None && body == ""
    {
      status := 200;
      contentType := None;
      body := "";
    }
  }

  /** The rest of the filter chain; it records every request passed on to it. */
  class FilterChain {
    var passed: seq<Request>

    constructor ()
      ensures passed == []
    {
      passed := [];
    }

    method DoFilter(request: Request)
      modifies this
      ensures passed == old(passed) + [request]
    {
      passed := passed + [request];
    }
  }

  class ApiKeyAuthFilter {
    const validApiKeys: KeyList
    const whitelist: Option<seq<string>>
    /** AntPathMatcher.match(pattern, path), left abstract. */
    const pathMatches: (string, string) -> bool

    constructor (validApiKeys: KeyList, whitelist: Option<seq<string>>, pathMatches: (string, string) -> bool)
      ensures this.validApiKeys == validApiKeys && this.whitelist == whitelist && this.pathMatches == pathMatches
    {
      this.validApiKeys := validApiKeys;
      this.whitelist := whitelist;
      this.pathMatches := pathMatches;
    }

    /** Some whitelist pattern matches the path; a null whitelist matches nothing. */
    predicate Whitelisted(path: string) {
      whitelist.Some? && exists i :: 0 <= i < |whitelist.value| && pathMatches(whitelist.value[i], path)
    }

    /** The requests the key check lets through. */
    predicate Admits(request: Request) {
      IsPreflight(request) || IsValidKey(request.apiKey, validApiKeys)
    }

    /** `shouldNotFilter`: scans the whitelist in order and stops at the first matching pattern. */
    method ShouldNotFilter(request: Request) returns (skip: bool)
      ensures skip <==> Whitelisted(request.uri)
    {
      if whitelist.None? {
        return false;
      }
      var patterns := whitelist.value;
      for i := 0 to |patterns|
        invariant forall j :: 0 <= j < i ==> !pathMatches(patterns[j], request.uri)
      {
        if pathMatches(patterns[i], request.uri) {
          return true;
        }
      }
      return false;
    }

    /**
     * `doFilterInternal`: an admitted request is passed on once and the
     * response is left alone; any other gets 401, the JSON content type and
     * the fixed error body, and is not passed on.
     */
    method DoFilterInternal(request: Request, response: Response, chain: FilterChain)
      modifies response, chain
      ensures Admits(request) ==>
        && chain.passed == old(chain.passed) + [request]
        && unchanged(response)
      ensures !Admits(request) ==>
        && chain.passed == old(chain.passed)
        && response.status == UnauthorizedStatus
        && response.contentType == Some(JsonContentType)
        && response.body == old(response.body) + UnauthorizedBody
    {
      if EqualsIgnoreCase(PreflightMethod, request.httpMethod) {
        chain.DoFilter(request);
        return;
      }
      if !IsValidKey(request.apiKey, validApiKeys) {
        response.status := UnauthorizedStatus;
        response.contentType := Some(JsonContentType);
        response.body := response.body + UnauthorizedBody;
        return;
      }
      chain.DoFilter(request);
    }

    /**
     * What OncePerRequestFilter does with the two hooks: a whitelisted request
     * skips the key check and is passed on; any other goes through it.
     */
    method DoFilter(request: Request, response: Response, chain: FilterChain)
      modifies response, chain
      ensures Whitelisted(request.uri) || Admits(request) ==>
        && chain.passed == old(chain.passed) + [request]
        && unchanged(response)
      ensures !Whitelisted(request.uri) && !Admits(request) ==>
        && chain.passed == old(chain.passed)
        && response.status == UnauthorizedStatus
        && response.contentType == Some(JsonContentType)
        && response.body == old(response.body) + UnauthorizedBody
    {
      var skip := ShouldNotFilter(request);
      if skip {
        chain.DoFilter(request);
      } else {
        DoFilterInternal(request, response, chain);
      }
    }
  }

  // ---------------------------------------------------------------------------
  // Properties of the key check
  // ---------------------------------------------------------------------------

  /** The presented key is compared as it is: one with a space the configured key lacks is refused. */
  lemma PresentedKeyNotTrimmed(k: string)
    requires !IsBlank(k) && k[0] != ' '
    ensures !IsValidKey(Some(" " + k), Some([Some(k)]))
  {
    assert (" " + k)[0] == ' ' != k[0];
  }

  /** The comparison is case-sensitive. */
  lemma KeyCaseSensitive()
    ensures !IsValidKey(Some("secret"), Some([Some("SECRET")]))
  {
    assert "secret"[0] != "SECRET"[0];
  }

  /** Null entries in the configured list never match and never stop a later entry from matching. */
  lemma {:induction false} NullEntriesIgnored(keys: seq<Option<string>>, key: string)
    ensures AnyEquals(keys, key) == AnyEquals(NonNull(keys), key)
    decreases |keys|
  {
    if keys != [] {
      NullEntriesIgnored(keys[1..], key);
    }
  }

  /** The list without its null entries. */
  function NonNull(keys: seq<Option<string>>): (r: seq<Option<string>>)
    ensures forall i :: 0 <= i < |r| ==> r[i].Some?
    decreases |keys|
  {
    if keys == [] then []
    else if keys[0].None? then NonNull(keys[1..])
    else [keys[0]] + NonNull(keys[1..])
  }
}
