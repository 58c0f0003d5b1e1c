/**
 * The guard that authenticates API requests by key: whether it applies to a
 * request, which key it reads, which user that key names, and the responses
 * it gives on failure and when authentication is missing.
 */
module ApiKeyAuthenticator {
  import opened Php

  /** The header whose presence makes the authenticator apply. */
  const DefaultApiKeyHeader: string := "X-Api-Key"

  const FailureMessage: string := "Authentication based on api key failed"
  const StartMessage: string := "Authentication Required"
  const HttpForbidden: int := 403
  const HttpUnauthorized: int := 401

  /** Header names are stored lower-cased with `_` turned into `-`. */
  function NormalizeChar(c: char): (d: char)
    ensures 'A' <= c <= 'Z' ==> d == c - 'A' + 'a'
    ensures c == '_' ==> d == '-'
    ensures !('A' <= c <= 'Z') && c != '_' ==> d == c
  {
    if 'A' <= c <= 'Z' then (c - 'A' + 'a') as char
    else if c == '_' then '-'
    else c
  }

  /** The key under which a header bag files a header name. */
  function Normalize(name: string): (r: string)
    ensures |r| == |name|
    ensures forall i :: 0 <= i < |name| ==> r[i] == NormalizeChar(name[i])
  {
    if name == [] then [] else [NormalizeChar(name[0])] + Normalize(name[1..])
  }

  /** Normalizing twice is normalizing once: normalized names are stable keys. */
  lemma NormalizeIdempotent(name: string)
    ensures Normalize(Normalize(name)) == Normalize(name)
  {
    var once := Normalize(name);
    var twice := Normalize(once);
    assert forall i | 0 <= i < |name| :: twice[i] == NormalizeChar(NormalizeChar(name[i])) == once[i];
  }

  /** The fixed header is filed as `x-api-key`, so any spelling differing only in case or `_` matches it. */
  lemma DefaultHeaderKey()
    ensures Normalize(DefaultApiKeyHeader) == "x-api-key"
  {
    var r := Normalize(DefaultApiKeyHeader);
    assert forall i | 0 <= i < 9 :: r[i] == "x-api-key"[i];
  }

  /** A request's headers, filed under normalized names (the first value of each). */
  datatype Request = Request(headers: map<string, string>)

  /** `$request->headers->has($name)`. */
  predicate Has(request: Request, name: string) {
    Normalize(name) in request.headers
  }

  /** `$request->headers->get($name)`: the first value, or `null`. */
  function Get(request: Request, name: string): (r: Option<string>)
    ensures r.Some? <==> Has(request, name)
    ensures r.Some? ==> r.value == request.headers[Normalize(name)]
  {
    if Normalize(name) in request.headers then Some(request.headers[Normalize(name)]) else None
  }

  /** A row of the configured user class, with its api key column. */
  datatype User = User(id: int, username: string, apiKey: Option<string>)

  /** The credentials array: `['key' => $key]`. */
  datatype Credentials = Credentials(key: Option<string>)

  /** A JSON response with a status code and a `message` entry. */
  datatype JsonResponse = JsonResponse(status: int, message: string)

  /**
   * `findOneBy(['apiKey' => $key])` over the user table, taken in table
   * order: the first user whose api key equals `key`.
   */
  function FindByApiKey(users: seq<User>, key: string): (r: Option<User>)
    ensures r.Some? ==> r.value in users && r.value.apiKey == Some(key)
    ensures r.Some? ==> exists i :: 0 <= i < |users| && users[i] == r.value &&
                                    forall j :: 0 <= j < i ==> users[j].apiKey != Some(key)
    ensures r.None? <==> forall u | u in users :: u.apiKey != Some(key)
  {
    if users == [] then None
    else if users[0].apiKey == Some(key) then Some(users[0])
    else
      var rest := FindByApiKey(users[1..], key);
      assert forall u | u in users && u != users[0] :: u in users[1..];
      if rest.Some? then
        var i :| 0 <= i < |users[1..]| && users[1..][i] == rest.value &&
                 forall j :: 0 <= j < i ==> users[1..][j].apiKey != Some(key);
        assert users[i + 1] == rest.value;
        rest
      else
        rest
  }

  /** The authenticator, configured with the header its credentials are read from. */
  datatype Authenticator = Authenticator(authenticationHeader: string) {

    /** `supports`: the fixed header `X-Api-Key` is present, whatever header is configured. */
    predicate Supports(request: Request)
      ensures Supports(request) <==> Normalize(DefaultApiKeyHeader) in request.headers
    {
      Has(request, DefaultApiKeyHeader)
    }

    /** `getCredentials`: the configured header's value, with an absent or falsy value as a null key. */
    function GetCredentials(request: Request): (c: Credentials)
      ensures c.key.Some? <==> TruthyString(Get(request, authenticationHeader))
      ensures c.key.Some? ==> c.key.value == request.headers[Normalize(authenticationHeader)]
    {
      var key := Get(request, authenticationHeader);
      if FalsyString(key) then Credentials(None) else Credentials(key)
    }

    /** `getUser`: no user for a null key; otherwise the user holding that key, if any. */
    function GetUser(credentials: Credentials, users: seq<User>): (r: Option<User>)
      ensures credentials.key.None? ==> r.None?
      ensures r.Some? ==> r.value in users && r.value.apiKey == credentials.key
      ensures credentials.key.Some? && (exists u | u in users :: u.apiKey == credentials.key) ==> r.Some?
    {
      if credentials.key.None? then None else FindByApiKey(users, credentials.key.value)
    }

    /** `checkCredentials`: every user found by key is accepted. */
    predicate CheckCredentials(credentials: Credentials, user: User)
      ensures CheckCredentials(credentials, user)
    {
      true
    }

    /** `onAuthenticationSuccess`: no response, so the request proceeds. */
    function OnAuthenticationSuccess(request: Request): (r: Option<JsonResponse>)
      ensures r.None?
    {
      None
    }

    /** `onAuthenticationFailure`: 403 with its fixed message. */
    function OnAuthenticationFailure(request: Request): (r: JsonResponse)
      ensures r.status == HttpForbidden && r.message == FailureMessage
    {
      JsonResponse(HttpForbidden, FailureMessage)
    }

    /** `start`: 401 asking for authentication. */
    function Start(request: Request): (r: JsonResponse)
      ensures r.status == HttpUnauthorized && r.message == StartMessage
    {
      JsonResponse(HttpUnauthorized, StartMessage)
    }

    /** `supportsRememberMe`: never. */
    predicate SupportsRememberMe()
      ensures !SupportsRememberMe()
    {
      false
    }

    /**
     * The guard framework's sequence over these methods: an unsupported
     * request is skipped; otherwise a missing user or refused credentials
     * end in the failure response, and a found, accepted user is
     * authenticated and the success handler's (empty) response is used.
     */
    function Authenticate(request: Request, users: seq<User>): (o: Outcome)
      ensures !Supports(request) ==> o == Skipped
      ensures o.Rejected? ==> o.response == JsonResponse(HttpForbidden, FailureMessage)
      ensures o.Authenticated? ==> o.successResponse.None?
    {
      if !Supports(request) then Skipped
      else
        var credentials := GetCredentials(request);
        var user := GetUser(credentials, users);
        if user.None? then Rejected(OnAuthenticationFailure(request))
        else if !CheckCredentials(credentials, user.value) then Rejected(OnAuthenticationFailure(request))
        else Authenticated(user.value, OnAuthenticationSuccess(request))
    }
  }

  /** What the guard decides for one request. */
  datatype Outcome = Skipped | Rejected(response: JsonResponse) | Authenticated(user: User, successResponse: Option<JsonResponse>)

  /**
   * A request is authenticated exactly when it carries `X-Api-Key`, the
   * configured header holds a truthy value, and some user has that value as
   * api key; the user authenticated is one holding it.
   */
  lemma AuthenticatedExactlyByKey(a: Authenticator, request: Request, users: seq<User>)
    ensures a.Authenticate(request, users).Authenticated? <==>
      && Has(request, DefaultApiKeyHeader)
      && TruthyString(Get(request, a.authenticationHeader))
      && exists u | u in users :: u.apiKey == Get(request, a.authenticationHeader)
    ensures a.Authenticate(request, users).Authenticated? ==>
      a.Authenticate(request, users).user.apiKey == Get(request, a.authenticationHeader)
  {
  }

  /** A supported request is never skipped: it ends either authenticated or with the 403. */
  lemma SupportedRequestIsDecided(a: Authenticator, request: Request, users: seq<User>)
    requires a.Supports(request)
    ensures a.Authenticate(request, users).Rejected? || a.Authenticate(request, users).Authenticated?
  {
  }

  /**
   * The asymmetry between the two header names: when the configured header
   * is not `X-Api-Key`, a request carrying only `X-Api-Key` is supported but
   * always rejected, whatever key it sends and whoever holds that key.
   */
  lemma DefaultHeaderAloneIsRejected(a: Authenticator, key: string, users: seq<User>)
    requires Normalize(a.authenticationHeader) != Normalize(DefaultApiKeyHeader)
    ensures var request := Request(map[Normalize(DefaultApiKeyHeader) := key]);
      a.Supports(request) && a.Authenticate(request, users) == Rejected(JsonResponse(HttpForbidden, FailureMessage))
  {
  }

  /**
   * Conversely, a request carrying a key only in the configured header is
   * skipped, even when a user holds that key.
   */
  lemma ConfiguredHeaderAloneIsSkipped(a: Authenticator, key: string, users: seq<User>)
    requires Normalize(a.authenticationHeader) != Normalize(DefaultApiKeyHeader)
    ensures a.Authenticate(Request(map[Normalize(a.authenticationHeader) := key]), users) == Skipped
  {
  }

  /** With the default header configured, the key `"0"` is treated as no key and always rejected. */
  lemma ZeroKeyIsRejected(users: seq<User>)
    ensures var request := Request(map[Normalize(DefaultApiKeyHeader) := "0"]);
      Authenticator(DefaultApiKeyHeader).Authenticate(request, users).Rejected?
  {
    var request := Request(map[Normalize(DefaultApiKeyHeader) := "0"]);
    assert Get(request, DefaultApiKeyHeader) == Some("0");
  }
}
