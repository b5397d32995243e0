/**
 The header and configuration bookkeeping of the PostgREST client.

 A client holds its configuration (the server URL, an optional schema and the
 header map) and updates the headers in place: construction merges the default
 headers in, and `SetAuth` sets or removes the `Authorization` header. Building
 a table query or a function call only reads the configuration, so those are
 functions of it. The default headers come from elsewhere in the package and
 are a parameter here.
 */
module Postgrest {
  import opened Wrappers

  type Headers = map<string, string>

  const AuthorizationHeader := "Authorization"
  const RpcPrefix := "/rpc/"

  /** The server URL is kept as text; fetch, coders and logger are not modelled. */
  datatype Configuration = Configuration(url: string, schema: Option<string>, headers: Headers)

  datatype HttpMethod = Get | Post

  datatype Request = Request(path: string, verb: HttpMethod, headers: Headers)

  /** The builders a client hands out, before any filter or parameter is added. */
  datatype Builder =
    | QueryBuilder(configuration: Configuration, request: Request)
    | RpcBuilder(configuration: Configuration, request: Request)

  /**
   Merging the default headers into the user's: the user's value wins on
   every key both have, and the defaults fill in every key the user left out.
   */
  function MergeDefaults(headers: Headers, defaults: Headers): (merged: Headers)
    ensures merged.Keys == headers.Keys + defaults.Keys
    ensures forall k :: k in headers ==> merged[k] == headers[k]
    ensures forall k :: k in defaults && k !in headers ==> merged[k] == defaults[k]
  {
    defaults + headers
  }

  /** Merging the defaults a second time changes nothing. */
  lemma MergeIdempotent(headers: Headers, defaults: Headers)
    ensures MergeDefaults(MergeDefaults(headers, defaults), defaults) == MergeDefaults(headers, defaults)
  {
    var once := MergeDefaults(headers, defaults);
    var twice := MergeDefaults(once, defaults);
    assert twice.Keys == once.Keys;
  }

  /** The merge leaves a header map as it is exactly when it already has every default key. */
  lemma MergeUnchangedIff(headers: Headers, defaults: Headers)
    ensures MergeDefaults(headers, defaults) == headers <==> defaults.Keys <= headers.Keys
  {
    var merged := MergeDefaults(headers, defaults);
    if defaults.Keys <= headers.Keys {
      assert merged.Keys == headers.Keys;
    }
  }

  /**
   The header map after `setAuth(token)`: a bearer credential under
   `Authorization` for a token, no `Authorization` entry for none, and every
   other header as it was.
   */
  function AuthHeaders(headers: Headers, token: Option<string>): (r: Headers)
    ensures forall k :: k != AuthorizationHeader ==> (k in r <==> k in headers)
    ensures forall k :: k != AuthorizationHeader && k in r ==> r[k] == headers[k]
    ensures token.Some? ==> AuthorizationHeader in r && r[AuthorizationHeader] == "Bearer " + token.value
    ensures token.None? ==> AuthorizationHeader !in r
  {
    match token
    case Some(t) => headers[AuthorizationHeader := "Bearer " + t]
    case None => headers - {AuthorizationHeader}
  }

  /** Only the last `setAuth` matters; in particular setting the same token twice is setting it once. */
  lemma AuthLastWins(headers: Headers, first: Option<string>, second: Option<string>)
    ensures AuthHeaders(AuthHeaders(headers, first), second) == AuthHeaders(headers, second)
  {
    var a := AuthHeaders(AuthHeaders(headers, first), second);
    var b := AuthHeaders(headers, second);
    assert a.Keys == b.Keys;
  }

  /** Clearing the credential when there is none is a no-op. */
  lemma AuthClearAbsent(headers: Headers)
    requires AuthorizationHeader !in headers
    ensures AuthHeaders(headers, None) == headers
  {
    assert AuthHeaders(headers, None).Keys == headers.Keys;
  }

  /** The function a request path calls, if it is a function-call path. */
  function RpcFunction(path: string): Option<string>
  {
    if |path| >= |RpcPrefix| && path[..|RpcPrefix|] == RpcPrefix then Some(path[|RpcPrefix|..]) else None
  }

  /** `from(table)`: a GET on the table with the client's current headers. */
  function From(configuration: Configuration, table: string): (b: Builder)
    ensures b.QueryBuilder? && b.configuration == configuration
    ensures b.request.verb == Get && b.request.path == table
    ensures b.request.headers == configuration.headers
  {
    QueryBuilder(configuration, Request(table, Get, configuration.headers))
  }

  /**
   `rpc(fn)`: a POST with the client's current headers, on a function-call
   path from which `fn` is read back.
   */
  function Rpc(configuration: Configuration, fn: string): (b: Builder)
    ensures b.RpcBuilder? && b.configuration == configuration
    ensures b.request.verb == Post && b.request.headers == configuration.headers
    ensures RpcFunction(b.request.path) == Some(fn)
  {
    var path := RpcPrefix + fn;
    assert path[..|RpcPrefix|] == RpcPrefix;
    assert path[|RpcPrefix|..] == fn;
    RpcBuilder(configuration, Request(path, Post, configuration.headers))
  }

  /**
   The headers a request carries, for a client built from `configuration` and
   then given `setAuth(token)`: apart from `Authorization`, every user header
   with the user's value and every other default header with its default
   value, and nothing else.
   */
  lemma RequestHeadersFollowClient(configuration: Configuration, defaults: Headers, token: Option<string>, table: string, fn: string)
    ensures var c := configuration.(headers := AuthHeaders(MergeDefaults(configuration.headers, defaults), token));
      var sent := From(c, table).request.headers;
      && Rpc(c, fn).request.headers == sent
      && (forall k :: k != AuthorizationHeader ==> (k in sent <==> k in configuration.headers || k in defaults))
      && (forall k :: k != AuthorizationHeader && k in configuration.headers ==> sent[k] == configuration.headers[k])
      && (forall k :: k != AuthorizationHeader && k in defaults && k !in configuration.headers ==> sent[k] == defaults[k])
  {
    var merged := MergeDefaults(configuration.headers, defaults);
    var sent := AuthHeaders(merged, token);
    forall k | k != AuthorizationHeader && k in configuration.headers
      ensures k in sent && sent[k] == configuration.headers[k]
    {
      assert k in merged;
    }
  }

  /** After `setAuth`, every request built carries the credential, or none after clearing it. */
  lemma AuthReachesRequests(configuration: Configuration, token: Option<string>, table: string, fn: string)
    ensures var c := configuration.(headers := AuthHeaders(configuration.headers, token));
      && (token.Some? ==>
            && From(c, table).request.headers[AuthorizationHeader] == "Bearer " + token.value
            && Rpc(c, fn).request.headers[AuthorizationHeader] == "Bearer " + token.value)
      && (token.None? ==>
            && AuthorizationHeader !in From(c, table).request.headers
            && AuthorizationHeader !in Rpc(c, fn).request.headers)
  {
  }

  /** Re-initialising a configuration whose headers already hold the defaults changes only the schema. */
  lemma SchemaChangesOnlySchema(configuration: Configuration, defaults: Headers, schema: string)
    requires defaults.Keys <= configuration.headers.Keys
    ensures var c := configuration.(schema := Some(schema));
      c.(headers := MergeDefaults(c.headers, defaults)) == configuration.(schema := Some(schema))
  {
    MergeUnchangedIff(configuration.headers, defaults);
  }

  class PostgrestClient {
    var configuration: Configuration
    /** The package's default headers, merged in at construction. */
    const defaultHeaders: Headers

    /** Every default header key is present. */
    ghost predicate HasDefaults()
      reads this
    {
      defaultHeaders.Keys <= configuration.headers.Keys
    }

    /** Takes the configuration and merges the default headers into its headers. */
    constructor (configuration: Configuration, defaultHeaders: Headers)
      ensures this.defaultHeaders == defaultHeaders
      ensures this.configuration == configuration.(headers := MergeDefaults(configuration.headers, defaultHeaders))
      ensures HasDefaults()
    {
      this.defaultHeaders := defaultHeaders;
      this.configuration := configuration;
      new;
      this.configuration := this.configuration.(headers := MergeDefaults(this.configuration.headers, defaultHeaders));
    }

    /** Sets or clears the bearer credential and returns this same client. */
    method SetAuth(token: Option<string>) returns (client: PostgrestClient)
      modifies this
      ensures client == this
      ensures configuration == old(configuration).(headers := AuthHeaders(old(configuration.headers), token))
      ensures old(HasDefaults()) && (token.Some? || AuthorizationHeader !in defaultHeaders) ==> HasDefaults()
    {
      match token {
        case Some(t) =>
          configuration := configuration.(headers := configuration.headers[AuthorizationHeader := "Bearer " + t]);
        case None =>
          configuration := configuration.(headers := configuration.headers - {AuthorizationHeader});
      }
      client := this;
    }

    /**
     A new client for `schema`: this client's configuration with the schema
     replaced, run through construction again. This client is not changed.
     */
    method Schema(schema: string) returns (client: PostgrestClient)
      ensures fresh(client) && client.defaultHeaders == defaultHeaders
      ensures client.configuration ==
        configuration.(schema := Some(schema), headers := MergeDefaults(configuration.headers, defaultHeaders))
      ensures HasDefaults() ==> client.configuration == configuration.(schema := Some(schema))
    {
      var copy := configuration.(schema := Some(schema));
      client := new PostgrestClient(copy, defaultHeaders);
      if HasDefaults() {
        SchemaChangesOnlySchema(configuration, defaultHeaders, schema);
      }
    }
  }
}
