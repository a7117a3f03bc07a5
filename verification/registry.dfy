/**
 The pure part of `registry.loadRegistryTags` (index.js:137-162): the port
 defaulting, the request descriptor with the caller's options laid over it,
 and the choice between the HTTP and HTTPS client.

 The URL parser is not modelled: its `hostname`, `protocol` and `port`
 fields are inputs, in the form Node's legacy parser returns them (strings,
 the protocol with its trailing colon, `null` where absent).
 */
module Registry {
  import opened Text

  /** The fields of the parsed registry URL that the request uses. */
  datatype ParsedUrl = ParsedUrl(hostname: Option<string>, protocol: Option<string>, port: Option<string>)

  /** A value of the request descriptor. `Opaque` stands for any other caller value (an object, a boolean, ...). */
  datatype Value = Null | Number(n: int) | Str(s: string) | Opaque(id: nat)

  /** The port after defaulting: a number the code assigns, or the parser's string kept as it was. */
  datatype Port = PortNumber(n: int) | PortString(s: string)

  datatype Transport = Http | Https

  /** What is handed to the HTTP client: which client, and the request options. */
  datatype Request = Request(transport: Transport, options: map<string, Value>)

  /** The parser gave no port, or an empty one: the `!urlObj.port` test. */
  predicate NoExplicitPort(url: ParsedUrl)
  {
    url.port.None? || url.port.value == ""
  }

  /** The protocol is compared with the literal `"http"`, not with the parser's `"http:"`. */
  function ResolvePort(url: ParsedUrl): Port
  {
    if NoExplicitPort(url) then PortNumber(if url.protocol == Some("http") then 80 else 443)
    else PortString(url.port.value)
  }

  function PortValue(p: Port): Value
  {
    match p
    case PortNumber(n) => Number(n)
    case PortString(s) => Str(s)
  }

  /** `urlObj.port === 443`: only the number 443 selects HTTPS, never the string `"443"`. */
  function ChooseTransport(p: Port): Transport
  {
    if p == PortNumber(443) then Https else Http
  }

  function TagsPath(imageName: string): string
  {
    "/v1/repositories/" + imageName + "/tags"
  }

  /** The descriptor before the caller's options are applied. */
  function DefaultOptions(url: ParsedUrl, imageName: string): map<string, Value>
  {
    map[
      "host" := if url.hostname.Some? then Str(url.hostname.value) else Null,
      "port" := PortValue(ResolvePort(url)),
      "path" := Str(TagsPath(imageName)),
      "method" := Str("GET")]
  }

  /** Copies every own key of `extra` over `base`: the caller's value wins on a shared key. */
  function Overlay(base: map<string, Value>, extra: map<string, Value>): (r: map<string, Value>)
    ensures r.Keys == base.Keys + extra.Keys
    ensures forall k :: k in extra ==> r[k] == extra[k]
    ensures forall k :: k in base && k !in extra ==> r[k] == base[k]
  {
    base + extra
  }

  /** The request `loadRegistryTags` issues for `imageName` against the parsed registry URL. */
  function PrepareRequest(url: ParsedUrl, imageName: string, httpOptions: map<string, Value>): (r: Request)
    ensures r.transport == Https <==> NoExplicitPort(url) && url.protocol != Some("http")
    ensures r.options.Keys == {"host", "port", "path", "method"} + httpOptions.Keys
    ensures forall k :: k in httpOptions ==> r.options[k] == httpOptions[k]
    ensures "path" !in httpOptions ==> r.options["path"] == Str("/v1/repositories/" + imageName + "/tags")
    ensures "method" !in httpOptions ==> r.options["method"] == Str("GET")
    ensures "host" !in httpOptions ==>
      r.options["host"] == if url.hostname.Some? then Str(url.hostname.value) else Null
    ensures "port" !in httpOptions && !NoExplicitPort(url) ==> r.options["port"] == Str(url.port.value)
    ensures "port" !in httpOptions && NoExplicitPort(url) ==>
      r.options["port"] == Number(if url.protocol == Some("http") then 80 else 443)
  {
    var port := ResolvePort(url);
    Request(ChooseTransport(port), Overlay(DefaultOptions(url, imageName), httpOptions))
  }

  /** HTTPS is used exactly when the resolved port is the number 443. */
  lemma TransportFollowsPort(url: ParsedUrl, imageName: string, httpOptions: map<string, Value>)
    ensures PrepareRequest(url, imageName, httpOptions).transport == Https <==> ResolvePort(url) == PortNumber(443)
  {
  }

  /**
   A URL as the parser returns it for `http://host/` (protocol `"http:"`, no
   port) gets port 443 and the HTTPS client, because the protocol never
   equals `"http"`.
   */
  lemma PlainHttpUrlGetsHttps(hostname: Option<string>, imageName: string, httpOptions: map<string, Value>)
    requires "port" !in httpOptions
    ensures var r := PrepareRequest(ParsedUrl(hostname, Some("http:"), None), imageName, httpOptions);
      r.transport == Https && r.options["port"] == Number(443)
  {
  }

  /**
   An explicit port, `443` included, is kept as the parser's string, and a
   string is never identical to the number 443: the plain HTTP client is used.
   */
  lemma ExplicitPortGetsHttp(url: ParsedUrl, imageName: string, httpOptions: map<string, Value>)
    requires !NoExplicitPort(url)
    ensures PrepareRequest(url, imageName, httpOptions).transport == Http
  {
  }

  /** A port in the caller's options changes the descriptor but not the client. */
  lemma CallerPortDoesNotChooseTransport(url: ParsedUrl, imageName: string, httpOptions: map<string, Value>, port: Value)
    ensures PrepareRequest(url, imageName, httpOptions["port" := port]).transport
         == PrepareRequest(url, imageName, httpOptions).transport
    ensures PrepareRequest(url, imageName, httpOptions["port" := port]).options["port"] == port
  {
  }
}
