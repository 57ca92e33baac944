/**
 * Base-URL resolution for the GraphQL HTTP and WebSocket endpoints and the
 * plain HTTP API. The build-time environment and the page's location are
 * parameters.
 */
module BaseUrl {
  import opened Wrappers

  /** The three optional build-time settings (`undefined` is `None`). */
  datatype Env = Env(
    graphQlHttpBaseUrl: Option<string>,
    graphQlWsBaseUrl: Option<string>,
    httpBaseUrl: Option<string>)

  /** The parts of `window.location` that are read. */
  datatype PageLocation = PageLocation(origin: string, protocol: string, host: string)

  /** JavaScript truthiness of an optional string: defined and non-empty. */
  predicate Truthy(v: Option<string>) {
    v.Some? && v.value != ""
  }

  /** The origin the browser reports for a location, `protocol//host`. */
  predicate WellFormed(loc: PageLocation) {
    loc.origin == loc.protocol + "//" + loc.host
  }

  /** getGraphQlHttpBaseUrl: the setting when truthy, else the page origin. */
  function GraphQlHttpBaseUrl(env: Env, loc: PageLocation): (r: string)
    ensures Truthy(env.graphQlHttpBaseUrl) ==> r == env.graphQlHttpBaseUrl.value
    ensures !Truthy(env.graphQlHttpBaseUrl) ==> r == loc.origin
  {
    if Truthy(env.graphQlHttpBaseUrl) then env.graphQlHttpBaseUrl.value
    else loc.origin
  }

  /** The WebSocket scheme paired with a page protocol. */
  function WsScheme(protocol: string): (scheme: string)
    ensures scheme == "wss" <==> protocol == "https:"
    ensures scheme == "ws" <==> protocol != "https:"
  {
    if protocol == "https:" then "wss" else "ws"
  }

  /**
   * getGraphQlWsBaseUrl: the setting when truthy, else `wss://host` on an
   * https page and `ws://host` on any other.
   */
  function GraphQlWsBaseUrl(env: Env, loc: PageLocation): (r: string)
    ensures Truthy(env.graphQlWsBaseUrl) ==> r == env.graphQlWsBaseUrl.value
    ensures !Truthy(env.graphQlWsBaseUrl) && loc.protocol == "https:" ==> r == "wss://" + loc.host
    ensures !Truthy(env.graphQlWsBaseUrl) && loc.protocol != "https:" ==> r == "ws://" + loc.host
  {
    if Truthy(env.graphQlWsBaseUrl) then env.graphQlWsBaseUrl.value
    else
      var protocol := WsScheme(loc.protocol);
      protocol + "://" + loc.host
  }

  /** getHttpBaseUrl: the setting when truthy, else the page origin. */
  function HttpBaseUrl(env: Env, loc: PageLocation): (r: string)
    ensures Truthy(env.httpBaseUrl) ==> r == env.httpBaseUrl.value
    ensures !Truthy(env.httpBaseUrl) ==> r == loc.origin
  {
    if Truthy(env.httpBaseUrl) then env.httpBaseUrl.value
    else loc.origin
  }

  /**
   * With neither GraphQL setting given, on an http or https page the
   * WebSocket URL is the HTTP URL with its "http" scheme prefix replaced by
   * "ws" (so https pairs with wss, http with ws).
   */
  lemma WsMirrorsHttp(env: Env, loc: PageLocation)
    requires !Truthy(env.graphQlHttpBaseUrl) && !Truthy(env.graphQlWsBaseUrl)
    requires WellFormed(loc)
    requires loc.protocol == "http:" || loc.protocol == "https:"
    ensures |GraphQlHttpBaseUrl(env, loc)| >= 4
    ensures GraphQlWsBaseUrl(env, loc) == "ws" + GraphQlHttpBaseUrl(env, loc)[4..]
  {
  }
}
