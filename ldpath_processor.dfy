/**
 * LdpathProcessor: turns the RDF of a repository resource into JSON with an LDPath
 * program. The model keeps the processor's decisions and the order of its state
 * effects; the HTTP probe, the LDPath evaluation, JSON serialisation and token minting
 * are parameters.
 */
module Ldpath {
  import opened Java
  import opened JavaStrings
  import opened Urls
  import opened Camel
  import opened LinkHeaderUtils
  import opened ProxiedLinkedData

  /** The `type` link URI that marks a non-RDF resource (a binary). */
  const NonRdfSourceUri := "http://www.w3.org/ns/ldp#NonRDFSource"

  /** `AddBearerAuthorizationProcessor.USERNAME_HEADER_NAME`: the issuer of the token. */
  const UsernameHeaderName := "CamelFcrepoUser"
  const ResourceUriHeaderName := "CamelFcrepoUri"
  const ContainerUriHeaderName := "CamelHttpUri"
  const AuthorizationHeaderName := "Authorization"

  /** The HEAD request sent to the container-based URI: its target and its headers. */
  datatype HeadRequest = HeadRequest(uri: string, headers: seq<HttpHeader>)

  /** How the HEAD request ends: an IOException, or a response and its headers. */
  datatype ProbeOutcome = ProbeIOException | ProbeResponse(headers: seq<HttpHeader>)

  /** The network: what a HEAD request comes back with. */
  type Prober = HeadRequest -> ProbeOutcome

  /** The "Authorization" header carrying token, as both HTTP clients send it. */
  function BearerHeader(authToken: string): (h: HttpHeader)
    ensures h.name == AuthorizationHeaderName
    ensures |h.value| == 7 + |authToken| && h.value[..7] == "Bearer " && h.value[7..] == authToken
  {
    HttpHeader(AuthorizationHeaderName, "Bearer " + authToken)
  }

  /** The probe of getLinkedDataResourceUrl: HEAD containerBasedUri with the bearer token only. */
  function ProbeRequest(authToken: string, containerBasedUri: string): HeadRequest
  {
    HeadRequest(containerBasedUri, [BearerHeader(authToken)])
  }

  // ---- getLinkedDataResourceUrl ----

  /**
   * getLinkedDataResourceUrl as written: `getUriByRel("describedby").toString()` is
   * called before the null test, so a response without a describedby link throws
   * NullPointerException.
   */
  function LinkedDataResourceUrlAsWritten(authToken: string, containerBasedUri: Option<string>,
                                          probe: Prober, parseLink: LinkParser): (r: Result<string, Exception>)
    ensures containerBasedUri.None? ==> r == Failure(NullPointerException)
    ensures containerBasedUri.Some? && probe(ProbeRequest(authToken, containerBasedUri.value)).ProbeIOException?
            ==> r == Success(containerBasedUri.value)
    ensures r.Success? && containerBasedUri.Some? && r.value != containerBasedUri.value ==>
              var outcome := probe(ProbeRequest(authToken, containerBasedUri.value));
              outcome.ProbeResponse? && LinksOfHeaders(outcome.headers, parseLink).Success?
              && ContainsLink(LinksOfHeaders(outcome.headers, parseLink).value, "type", NonRdfSourceUri)
  {
    if containerBasedUri.None? then Failure(NullPointerException)
    else
      var container := containerBasedUri.value;
      match probe(ProbeRequest(authToken, container))
      case ProbeIOException => Success(container)
      case ProbeResponse(responseHeaders) =>
        match LinksOfHeaders(responseHeaders, parseLink)
        case Failure(e) => Failure(e)
        case Success(linkHeaders) =>
          var describedBy := GetUriByRel(linkHeaders, "describedby");
          if describedBy.None? then Failure(NullPointerException)
          else if ContainsLink(linkHeaders, "type", NonRdfSourceUri) then Success(describedBy.value)
          else Success(container)
  }

  /**
   * getLinkedDataResourceUrl as its null test intends: the describedby target for a
   * non-RDF resource that has one, otherwise the container-based URI (also when the
   * probe fails with an IOException). A null container-based URI, and a Link header the
   * link parser rejects, still throw.
   */
  function LinkedDataResourceUrl(authToken: string, containerBasedUri: Option<string>,
                                 probe: Prober, parseLink: LinkParser): (r: Result<string, Exception>)
    ensures containerBasedUri.None? <==> r == Failure(NullPointerException)
    ensures containerBasedUri.Some? && probe(ProbeRequest(authToken, containerBasedUri.value)).ProbeIOException?
            ==> r == Success(containerBasedUri.value)
    ensures r.Failure? && containerBasedUri.Some? ==>
              var outcome := probe(ProbeRequest(authToken, containerBasedUri.value));
              outcome.ProbeResponse? && LinksOfHeaders(outcome.headers, parseLink) == Failure(r.error)
  {
    if containerBasedUri.None? then Failure(NullPointerException)
    else
      var container := containerBasedUri.value;
      match probe(ProbeRequest(authToken, container))
      case ProbeIOException => Success(container)
      case ProbeResponse(responseHeaders) =>
        match LinksOfHeaders(responseHeaders, parseLink)
        case Failure(e) =>
          FromListMeaning(LinkHeaderValues(responseHeaders), parseLink);
          Failure(e)
        case Success(linkHeaders) =>
          var describedBy := GetUriByRel(linkHeaders, "describedby");
          if ContainsLink(linkHeaders, "type", NonRdfSourceUri) && describedBy.Some? then Success(describedBy.value)
          else Success(container)
  }

  /** A non-RDF resource with a describedby link resolves to the describedby target. */
  lemma NonRdfResolvesToDescribedBy(authToken: string, container: string, probe: Prober, parseLink: LinkParser,
                                    linkHeaders: LinkHeaders)
    requires probe(ProbeRequest(authToken, container)).ProbeResponse?
    requires LinksOfHeaders(probe(ProbeRequest(authToken, container)).headers, parseLink) == Success(linkHeaders)
    requires ContainsLink(linkHeaders, "type", NonRdfSourceUri)
    requires exists i | 0 <= i < |linkHeaders.links| :: linkHeaders.links[i].rel == "describedby"
    ensures var k := FirstWithRel(linkHeaders.links, "describedby");
            0 <= k && LinkedDataResourceUrl(authToken, Some(container), probe, parseLink)
                      == Success(linkHeaders.links[k].uri)
  {
  }

  /** A resource the probe does not show as non-RDF resolves to its container-based URI. */
  lemma RdfResolvesToContainer(authToken: string, container: string, probe: Prober, parseLink: LinkParser,
                               linkHeaders: LinkHeaders)
    requires probe(ProbeRequest(authToken, container)).ProbeResponse?
    requires LinksOfHeaders(probe(ProbeRequest(authToken, container)).headers, parseLink) == Success(linkHeaders)
    requires !ContainsLink(linkHeaders, "type", NonRdfSourceUri)
    ensures LinkedDataResourceUrl(authToken, Some(container), probe, parseLink) == Success(container)
  {
  }

  /** Whenever the written code returns, it returns what the corrected code returns. */
  lemma AsWrittenAgreesWhenItReturns(authToken: string, containerBasedUri: Option<string>,
                                     probe: Prober, parseLink: LinkParser)
    requires LinkedDataResourceUrlAsWritten(authToken, containerBasedUri, probe, parseLink).Success?
    ensures LinkedDataResourceUrlAsWritten(authToken, containerBasedUri, probe, parseLink)
            == LinkedDataResourceUrl(authToken, containerBasedUri, probe, parseLink)
  {
  }

  /**
   * The written code throws exactly where it departs from the corrected code: for
   * every response whose links parse but hold no describedby link.
   */
  lemma AsWrittenThrowsWithoutDescribedBy(authToken: string, container: string, probe: Prober,
                                          parseLink: LinkParser, linkHeaders: LinkHeaders)
    requires probe(ProbeRequest(authToken, container)).ProbeResponse?
    requires LinksOfHeaders(probe(ProbeRequest(authToken, container)).headers, parseLink) == Success(linkHeaders)
    requires forall i | 0 <= i < |linkHeaders.links| :: linkHeaders.links[i].rel != "describedby"
    ensures LinkedDataResourceUrlAsWritten(authToken, Some(container), probe, parseLink) == Failure(NullPointerException)
    ensures LinkedDataResourceUrl(authToken, Some(container), probe, parseLink) == Success(container)
  {
  }

  /** A probe answer that carries only a Content-Type header. */
  function ContentTypeOnly(request: HeadRequest): ProbeOutcome
  {
    ProbeResponse([HttpHeader("Content-Type", "text/turtle")])
  }

  /**
   * The input that shows the NullPointerException: the HEAD response of an ordinary
   * RDF container, which has no Link header at all.
   */
  lemma ContentTypeOnlyExample(parseLink: LinkParser)
    ensures LinkedDataResourceUrlAsWritten("token", Some("http://repository:8080/rest/a"), ContentTypeOnly, parseLink)
            == Failure(NullPointerException)
    ensures LinkedDataResourceUrl("token", Some("http://repository:8080/rest/a"), ContentTypeOnly, parseLink)
            == Success("http://repository:8080/rest/a")
  {
    var headers := [HttpHeader("Content-Type", "text/turtle")];
    assert !IsLinkHeader(headers[0]);
    assert LinkHeaderValues(headers) == LinkHeaderValues([]) == [];
    assert FromList([], parseLink) == Success(LinkHeaders([]));
  }

  // ---- getForwardedHost and the client headers ----

  /** getForwardedHost: the host, with ":" and the port appended when the URL names one. */
  function ForwardedHost(url: Url): (fh: string)
    ensures url.port == -1 ==> fh == url.host
    ensures url.port != -1 ==> fh == url.host + ":" + NatToString(url.port)
    ensures url.port != -1 ==> SplitHostPort(fh) == (url.host, url.port)
  {
    HostPort(url.host, url.port)
  }

  /** The default headers of the HTTP client LDPath fetches with. */
  function ClientHeaders(authToken: string, resourceUrl: Url): (hs: seq<HttpHeader>)
    ensures |hs| == 3
    ensures hs[0] == BearerHeader(authToken)
    ensures hs[1].name == "X-Forwarded-Host" && hs[1].value == ForwardedHost(resourceUrl)
    ensures hs[2].name == "X-Forwarded-Proto" && hs[2].value == resourceUrl.protocol
  {
    var headers: seq<HttpHeader> := [];
    var headers := headers + [BearerHeader(authToken)];
    var headers := headers + [HttpHeader("X-Forwarded-Host", ForwardedHost(resourceUrl))];
    headers + [HttpHeader("X-Forwarded-Proto", resourceUrl.protocol)]
  }

  // ---- process ----

  /** What the LDPath program evaluation is given: the resource, the program and the fetch configuration. */
  datatype LdpathInput = LdpathInput(resourceUri: string, program: string,
                                     linkedDataMap: map<string, Option<string>>, clientHeaders: seq<HttpHeader>)

  /** How `execute` ends: the JSON string, or one of the two exceptions process catches. */
  datatype QueryResult = JsonResult(json: string) | LdpathParseError | JsonProcessingError

  /** The result of `execute`, and the resources LDCache stored while fetching. */
  datatype Evaluation = Evaluation(result: QueryResult, fetched: set<string>)

  /** LDPath over LDCache, then Jackson: foreign, so a parameter. */
  type LdpathQuery = LdpathInput -> Evaluation

  /** `getAuthToken(exchange, issuer)`: a token for the issuer; a parameter. */
  type TokenMinter = Option<string> -> string

  /**
   * Everything process can change: the caching backend's keys, the provider's shared
   * map, the HTTP client's default headers, and the message's headers and body and the
   * exchange's properties.
   */
  datatype Observed = Observed(cache: set<string>, linkedDataMap: map<string, Option<string>>,
                               clientHeaders: seq<HttpHeader>, headers: map<string, HeaderValue>,
                               body: string, properties: map<string, string>)

  /** The state process leaves, and how it ends. */
  datatype Effect = Effect(after: Observed, completion: Completion)

  /** Which getLinkedDataResourceUrl process calls: the code as written, or the corrected one. */
  datatype Resolver = AsWritten | Corrected

  /** The linked-data URL the chosen getLinkedDataResourceUrl gives. */
  function ResolveLinkedDataUrl(resolver: Resolver, authToken: string, containerBasedUri: Option<string>,
                                probe: Prober, parseLink: LinkParser): Result<string, Exception>
  {
    match resolver
    case AsWritten => LinkedDataResourceUrlAsWritten(authToken, containerBasedUri, probe, parseLink)
    case Corrected => LinkedDataResourceUrl(authToken, containerBasedUri, probe, parseLink)
  }

  /** The message of the IllegalArgumentException Sesame's `new URIImpl(s)` throws for a URI without ':'. */
  function NotAbsoluteUriMessage(uri: string): string
  {
    "Not a valid (absolute) URI: " + uri
  }

  /** How far process gets before LDPath runs: it has ended, or LDPath is about to run on input from mapped. */
  datatype Stage = Ended(effect: Effect) | Querying(mapped: Observed, input: LdpathInput)

  /**
   * process up to the LDPath evaluation:
   *  1. a null CamelFcrepoUri throws NullPointerException where the cache key is built,
   *     and a URI without ':' makes `new URIImpl` throw IllegalArgumentException, both
   *     before the cache is touched;
   *  2. the resource's cache entry is evicted;
   *  3. a resource URI that is not a URL ends process normally, with nothing else done;
   *  4. the client gets the Authorization, X-Forwarded-Host and X-Forwarded-Proto headers;
   *  5. the linked-data URL is resolved (its exceptions propagate);
   *  6. the provider maps the resource URI to it;
   *  7. a null program throws NullPointerException; otherwise LDPath is to run.
   */
  function ProcessUntilQuery(s: Observed, query: Option<string>, mintToken: TokenMinter, parseUrl: UrlParser,
                             parseLink: LinkParser, probe: Prober, resolver: Resolver): (stage: Stage)
    ensures stage.Querying? ==>
              stage.mapped.headers == s.headers && stage.mapped.body == s.body && stage.mapped.properties == s.properties
              && stage.input.linkedDataMap == stage.mapped.linkedDataMap && stage.input.resourceUri in stage.mapped.linkedDataMap
              && stage.input.clientHeaders == stage.mapped.clientHeaders
  {
    var resourceUri := StringHeader(s.headers, ResourceUriHeaderName);
    if resourceUri.None? then Ended(Effect(s, Thrown(NullPointerException)))
    else
      var uri := resourceUri.value;
      if ':' !in uri then Ended(Effect(s, Thrown(IllegalArgumentException(NotAbsoluteUriMessage(uri)))))
      else
        var evicted := s.(cache := s.cache - {uri});
        var authToken := mintToken(StringHeader(s.headers, UsernameHeaderName));
        match parseUrl(uri)
        case Failure(_) => Ended(Effect(evicted, Normal))
        case Success(url) =>
          var configured := evicted.(clientHeaders := ClientHeaders(authToken, url));
          match ResolveLinkedDataUrl(resolver, authToken, StringHeader(s.headers, ContainerUriHeaderName), probe, parseLink)
          case Failure(ex) => Ended(Effect(configured, Thrown(ex)))
          case Success(target) =>
            var mapped := configured.(linkedDataMap := configured.linkedDataMap[uri := Some(target)]);
            if query.None? then Ended(Effect(mapped, Thrown(NullPointerException)))
            else Querying(mapped, LdpathInput(uri, query.value, mapped.linkedDataMap, mapped.clientHeaders))
  }

  /**
   * The LDPath evaluation process runs, when it gets that far: the program is set, the
   * resource URI is a URL and the linked-data URL resolves.
   */
  function QueryInput(s: Observed, query: Option<string>, mintToken: TokenMinter, parseUrl: UrlParser,
                      parseLink: LinkParser, probe: Prober, resolver: Resolver): (input: Option<LdpathInput>)
    ensures input.Some? ==>
              var uri := StringHeader(s.headers, ResourceUriHeaderName);
              uri.Some? && input.value.resourceUri == uri.value && Some(input.value.program) == query
              && ':' in uri.value && parseUrl(uri.value).Success?
  {
    var stage := ProcessUntilQuery(s, query, mintToken, parseUrl, parseLink, probe, resolver);
    if stage.Querying? then Some(stage.input) else None
  }

  /**
   * process, as a function of the state before it and of the getLinkedDataResourceUrl it
   * calls: the steps of ProcessUntilQuery, then LDPath, whose errors become
   * RuntimeCamelException and leave the mapping in place; on success the mapping is
   * removed, the charset becomes UTF-8, the body becomes the JSON and Content-Type
   * becomes application/json.
   */
  function ProcessEffect(s: Observed, query: Option<string>, mintToken: TokenMinter, parseUrl: UrlParser,
                         parseLink: LinkParser, probe: Prober, resolver: Resolver, evaluate: LdpathQuery): (e: Effect)
    ensures StringHeader(s.headers, ResourceUriHeaderName).None? ==> e == Effect(s, Thrown(NullPointerException))
    ensures var uri := StringHeader(s.headers, ResourceUriHeaderName);
            uri.Some? && ':' !in uri.value ==> e == Effect(s, Thrown(IllegalArgumentException(NotAbsoluteUriMessage(uri.value))))
    ensures e.completion.Thrown? ==> e.after.headers == s.headers && e.after.body == s.body
                                     && e.after.properties == s.properties
  {
    match ProcessUntilQuery(s, query, mintToken, parseUrl, parseLink, probe, resolver)
    case Ended(e) => e
    case Querying(mapped, input) =>
      var evaluation := evaluate(input);
      var fetched := mapped.(cache := mapped.cache + evaluation.fetched);
      match evaluation.result
      case LdpathParseError => Effect(fetched, Thrown(RuntimeCamelException("LDPath parse error")))
      case JsonProcessingError => Effect(fetched, Thrown(RuntimeCamelException("JSON processing error")))
      case JsonResult(json) =>
        Effect(fetched.(linkedDataMap := fetched.linkedDataMap - {input.resourceUri},
                        properties := fetched.properties[CharsetNameProperty := "UTF-8"],
                        body := json,
                        headers := fetched.headers["Content-Type" := Text("application/json")]),
               Normal)
  }

  /** The processor: its caching backend, its client configuration, its LDPath program and its provider. */
  class LdpathProcessor {
    /** The keys of the Infinispan caching backend. */
    var cachedResources: set<string>
    /** The default headers of the client configuration's HttpClient. */
    var clientHeaders: seq<HttpHeader>
    var query: Option<string>
    const provider: ProxiedLinkedDataProvider

    /** A fresh processor: an empty cache, no client headers yet, no program, and a new provider. */
    constructor (statics: ProviderStatics, internalEnv: Option<string>, externalEnv: Option<string>)
      modifies statics
      ensures cachedResources == {} && clientHeaders == [] && query == None
      ensures provider.statics == statics && statics.Configured()
      ensures statics.linkedDataMap == old(statics.linkedDataMap)
    {
      cachedResources := {};
      clientHeaders := [];
      query := None;
      provider := new ProxiedLinkedDataProvider(statics, internalEnv, externalEnv);
    }

    method SetQuery(query: Option<string>)
      modifies this
      ensures this.query == query
      ensures cachedResources == old(cachedResources) && clientHeaders == old(clientHeaders)
    {
      this.query := query;
    }

    /** The state process reads and writes. */
    function Observe(exchange: Exchange): Observed
      reads this, provider.statics, exchange, exchange.message
    {
      Observed(cachedResources, provider.statics.linkedDataMap, clientHeaders,
               exchange.message.headers, exchange.message.body, exchange.properties)
    }

    /**
     * process(exchange), calling getLinkedDataResourceUrl as written: its effects are
     * those ProcessEffect states for that resolver, and nothing else changes.
     */
    method Process(exchange: Exchange, mintToken: TokenMinter, parseUrl: UrlParser, parseLink: LinkParser,
                   probe: Prober, evaluate: LdpathQuery) returns (completion: Completion)
      modifies this, provider.statics, exchange, exchange.message
      ensures var e := ProcessEffect(old(Observe(exchange)), query, mintToken, parseUrl, parseLink, probe,
                                     AsWritten, evaluate);
              Observe(exchange) == e.after && completion == e.completion
      ensures query == old(query)
      ensures provider.statics.repoInternalUrl == old(provider.statics.repoInternalUrl)
      ensures provider.statics.repoExternalUrl == old(provider.statics.repoExternalUrl)
    {
      var message := exchange.message;
      var issuer := StringHeader(message.headers, UsernameHeaderName);
      var resourceUri := StringHeader(message.headers, ResourceUriHeaderName);
      var containerBasedUri := StringHeader(message.headers, ContainerUriHeaderName);
      if resourceUri.None? {
        return Thrown(NullPointerException);
      }
      var uri := resourceUri.value;
      if ':' !in uri {
        return Thrown(IllegalArgumentException(NotAbsoluteUriMessage(uri)));
      }
      cachedResources := cachedResources - {uri};
      var authToken := mintToken(issuer);
      var resourceUrl := parseUrl(uri);
      if resourceUrl.Failure? {
        return Normal;
      }
      clientHeaders := ClientHeaders(authToken, resourceUrl.value);
      var linkedDataResourceUrl := LinkedDataResourceUrlAsWritten(authToken, containerBasedUri, probe, parseLink);
      if linkedDataResourceUrl.Failure? {
        return Thrown(linkedDataResourceUrl.error);
      }
      provider.SetLinkedDataMapping(uri, Some(linkedDataResourceUrl.value));
      if query.None? {
        return Thrown(NullPointerException);
      }
      var evaluation := evaluate(LdpathInput(uri, query.value, provider.statics.linkedDataMap, clientHeaders));
      cachedResources := cachedResources + evaluation.fetched;
      match evaluation.result {
        case LdpathParseError =>
          return Thrown(RuntimeCamelException("LDPath parse error"));
        case JsonProcessingError =>
          return Thrown(RuntimeCamelException("JSON processing error"));
        case JsonResult(json) =>
          provider.RemoveLinkedDataMapping(uri);
          exchange.properties := exchange.properties[CharsetNameProperty := "UTF-8"];
          message.body := json;
          message.headers := message.headers["Content-Type" := Text("application/json")];
          return Normal;
      }
    }
  }

  // ---- properties of process ----

  /**
   * A resource URI that passes URIImpl's check but is not a URL: its cache entry is
   * evicted and process returns normally with nothing else changed; no mapping is set
   * and no client header either.
   */
  lemma MalformedUriReturnsEarly(s: Observed, query: Option<string>, mintToken: TokenMinter, parseUrl: UrlParser,
                                 parseLink: LinkParser, probe: Prober, resolver: Resolver, evaluate: LdpathQuery,
                                 uri: string)
    requires StringHeader(s.headers, ResourceUriHeaderName) == Some(uri)
    requires ':' in uri && parseUrl(uri).Failure?
    ensures var e := ProcessEffect(s, query, mintToken, parseUrl, parseLink, probe, resolver, evaluate);
            e.completion == Normal && e.after == s.(cache := s.cache - {uri})
  {
  }

  /**
   * Every run whose resource URI passes URIImpl's check evicts its cache entry; only the
   * LDPath fetches can add it back.
   */
  lemma CacheEntryEvicted(s: Observed, query: Option<string>, mintToken: TokenMinter, parseUrl: UrlParser,
                          parseLink: LinkParser, probe: Prober, resolver: Resolver, evaluate: LdpathQuery, uri: string)
    requires StringHeader(s.headers, ResourceUriHeaderName) == Some(uri)
    requires ':' in uri
    ensures var e := ProcessEffect(s, query, mintToken, parseUrl, parseLink, probe, resolver, evaluate);
            var input := QueryInput(s, query, mintToken, parseUrl, parseLink, probe, resolver);
            if input.None? then e.after.cache == s.cache - {uri}
            else e.after.cache == (s.cache - {uri}) + evaluate(input.value).fetched
  {
  }

  /**
   * While LDPath runs, the provider resolves the resource URI (when it has no fragment)
   * to exactly the linked-data URL, without parsing it.
   */
  lemma MappingVisibleToQuery(s: Observed, query: Option<string>, mintToken: TokenMinter, parseUrl: UrlParser,
                              parseLink: LinkParser, probe: Prober, resolver: Resolver,
                              parseBase: UriParser, internalBase: string, externalBase: string)
    requires QueryInput(s, query, mintToken, parseUrl, parseLink, probe, resolver).Some?
    requires '#' !in QueryInput(s, query, mintToken, parseUrl, parseLink, probe, resolver).value.resourceUri
    ensures var input := QueryInput(s, query, mintToken, parseUrl, parseLink, probe, resolver).value;
            var target := ResolveLinkedDataUrl(resolver, mintToken(StringHeader(s.headers, UsernameHeaderName)),
                                               StringHeader(s.headers, ContainerUriHeaderName), probe, parseLink);
            target.Success?
            && RequestUrl(input.linkedDataMap, internalBase, externalBase, parseUrl, parseBase, input.resourceUri)
               == Success([target.value])
  {
    var input := QueryInput(s, query, mintToken, parseUrl, parseLink, probe, resolver).value;
    var authToken := mintToken(StringHeader(s.headers, UsernameHeaderName));
    var target := ResolveLinkedDataUrl(resolver, authToken, StringHeader(s.headers, ContainerUriHeaderName), probe,
                                       parseLink);
    MappedKeyResolves(s.linkedDataMap, internalBase, externalBase, parseUrl, parseBase, input.resourceUri, target.value);
  }

  /** The client headers LDPath fetches with, once the resource URI is a URL. */
  lemma ClientHeadersSet(s: Observed, query: Option<string>, mintToken: TokenMinter, parseUrl: UrlParser,
                         parseLink: LinkParser, probe: Prober, resolver: Resolver, evaluate: LdpathQuery, uri: string)
    requires StringHeader(s.headers, ResourceUriHeaderName) == Some(uri)
    requires ':' in uri && parseUrl(uri).Success?
    ensures var e := ProcessEffect(s, query, mintToken, parseUrl, parseLink, probe, resolver, evaluate);
            var url := parseUrl(uri).value;
            e.after.clientHeaders
            == [HttpHeader("Authorization", "Bearer " + mintToken(StringHeader(s.headers, UsernameHeaderName))),
                HttpHeader("X-Forwarded-Host", ForwardedHost(url)),
                HttpHeader("X-Forwarded-Proto", url.protocol)]
  {
    var e := ProcessEffect(s, query, mintToken, parseUrl, parseLink, probe, resolver, evaluate);
    var authToken := mintToken(StringHeader(s.headers, UsernameHeaderName));
    var url := parseUrl(uri).value;
    var hs := ClientHeaders(authToken, url);
    assert e.after.clientHeaders == hs;
    assert hs == [hs[0], hs[1], hs[2]];
  }

  /**
   * A run that ends normally either stopped at a malformed URI, or removed the mapping,
   * set the charset to UTF-8, set the body to the JSON result and Content-Type to
   * application/json; every other header and property stays.
   */
  lemma NormalCompletionEffects(s: Observed, query: Option<string>, mintToken: TokenMinter, parseUrl: UrlParser,
                                parseLink: LinkParser, probe: Prober, resolver: Resolver, evaluate: LdpathQuery,
                                uri: string)
    requires StringHeader(s.headers, ResourceUriHeaderName) == Some(uri)
    requires ProcessEffect(s, query, mintToken, parseUrl, parseLink, probe, resolver, evaluate).completion == Normal
    ensures var e := ProcessEffect(s, query, mintToken, parseUrl, parseLink, probe, resolver, evaluate);
            var input := QueryInput(s, query, mintToken, parseUrl, parseLink, probe, resolver);
            parseUrl(uri).Failure?
            || (input.Some? && evaluate(input.value).result.JsonResult?
                && uri !in e.after.linkedDataMap
                && e.after.linkedDataMap == s.linkedDataMap - {uri}
                && e.after.body == evaluate(input.value).result.json
                && e.after.headers == s.headers["Content-Type" := Text("application/json")]
                && e.after.properties == s.properties[CharsetNameProperty := "UTF-8"])
  {
  }

  /**
   * A failing LDPath program or JSON serialisation is rethrown as RuntimeCamelException
   * before the mapping is removed: the resource URI stays mapped to the linked-data URL.
   */
  lemma QueryErrorLeavesMapping(s: Observed, query: Option<string>, mintToken: TokenMinter, parseUrl: UrlParser,
                                parseLink: LinkParser, probe: Prober, resolver: Resolver, evaluate: LdpathQuery)
    requires QueryInput(s, query, mintToken, parseUrl, parseLink, probe, resolver).Some?
    requires !evaluate(QueryInput(s, query, mintToken, parseUrl, parseLink, probe, resolver).value).result.JsonResult?
    ensures var e := ProcessEffect(s, query, mintToken, parseUrl, parseLink, probe, resolver, evaluate);
            var input := QueryInput(s, query, mintToken, parseUrl, parseLink, probe, resolver).value;
            e.completion.Thrown? && e.completion.exception.RuntimeCamelException?
            && e.after.linkedDataMap == input.linkedDataMap
            && input.resourceUri in e.after.linkedDataMap && e.after.linkedDataMap[input.resourceUri].Some?
  {
  }

  /** process touches the provider's map only at the resource URI's own key. */
  lemma OtherMappingsUnchanged(s: Observed, query: Option<string>, mintToken: TokenMinter, parseUrl: UrlParser,
                               parseLink: LinkParser, probe: Prober, resolver: Resolver, evaluate: LdpathQuery,
                               uri: string)
    requires StringHeader(s.headers, ResourceUriHeaderName) == Some(uri)
    ensures var e := ProcessEffect(s, query, mintToken, parseUrl, parseLink, probe, resolver, evaluate);
            e.after.linkedDataMap - {uri} == s.linkedDataMap - {uri}
  {
    var e := ProcessEffect(s, query, mintToken, parseUrl, parseLink, probe, resolver, evaluate);
    var authToken := mintToken(StringHeader(s.headers, UsernameHeaderName));
    var target := ResolveLinkedDataUrl(resolver, authToken, StringHeader(s.headers, ContainerUriHeaderName), probe,
                                       parseLink);
    if ':' in uri && parseUrl(uri).Success? && target.Success? {
      assert s.linkedDataMap[uri := Some(target.value)] - {uri} == s.linkedDataMap - {uri};
      assert s.linkedDataMap[uri := Some(target.value)] - {uri} - {uri} == s.linkedDataMap - {uri};
    }
  }

  // ---- process as written against process with the corrected resolution ----

  /**
   * As written, process on a resource whose HEAD response has no describedby link
   * throws NullPointerException after evicting the cache entry and configuring the
   * client, and before any mapping is set; the message and the properties are
   * untouched. The corrected resolution goes on to the container-based URI.
   */
  lemma AsWrittenProcessThrowsWithoutDescribedBy(s: Observed, query: Option<string>, mintToken: TokenMinter,
                                                 parseUrl: UrlParser, parseLink: LinkParser, probe: Prober,
                                                 evaluate: LdpathQuery, uri: string, container: string,
                                                 linkHeaders: LinkHeaders)
    requires StringHeader(s.headers, ResourceUriHeaderName) == Some(uri)
    requires ':' in uri && parseUrl(uri).Success?
    requires StringHeader(s.headers, ContainerUriHeaderName) == Some(container)
    requires var request := ProbeRequest(mintToken(StringHeader(s.headers, UsernameHeaderName)), container);
             probe(request).ProbeResponse? && LinksOfHeaders(probe(request).headers, parseLink) == Success(linkHeaders)
    requires forall i | 0 <= i < |linkHeaders.links| :: linkHeaders.links[i].rel != "describedby"
    ensures var authToken := mintToken(StringHeader(s.headers, UsernameHeaderName));
            ProcessEffect(s, query, mintToken, parseUrl, parseLink, probe, AsWritten, evaluate)
            == Effect(s.(cache := s.cache - {uri}, clientHeaders := ClientHeaders(authToken, parseUrl(uri).value)),
                      Thrown(NullPointerException))
    ensures query.Some? ==>
              var input := QueryInput(s, query, mintToken, parseUrl, parseLink, probe, Corrected);
              input.Some? && input.value.linkedDataMap == s.linkedDataMap[uri := Some(container)]
  {
    var authToken := mintToken(StringHeader(s.headers, UsernameHeaderName));
    AsWrittenThrowsWithoutDescribedBy(authToken, container, probe, parseLink, linkHeaders);
  }

  /**
   * The two versions of process differ only where the written resolution throws its
   * NullPointerException: whenever process as written ends otherwise, in particular
   * whenever it completes, it has the effect of process with the corrected resolution.
   */
  lemma AsWrittenProcessAgrees(s: Observed, query: Option<string>, mintToken: TokenMinter, parseUrl: UrlParser,
                               parseLink: LinkParser, probe: Prober, evaluate: LdpathQuery)
    requires ProcessEffect(s, query, mintToken, parseUrl, parseLink, probe, AsWritten, evaluate).completion
             != Thrown(NullPointerException)
    ensures ProcessEffect(s, query, mintToken, parseUrl, parseLink, probe, AsWritten, evaluate)
            == ProcessEffect(s, query, mintToken, parseUrl, parseLink, probe, Corrected, evaluate)
  {
    AsWrittenStageAgrees(s, query, mintToken, parseUrl, parseLink, probe);
  }

  /** Up to LDPath, the two versions of process part only where the written one throws NullPointerException. */
  lemma AsWrittenStageAgrees(s: Observed, query: Option<string>, mintToken: TokenMinter, parseUrl: UrlParser,
                             parseLink: LinkParser, probe: Prober)
    ensures var written := ProcessUntilQuery(s, query, mintToken, parseUrl, parseLink, probe, AsWritten);
            written == ProcessUntilQuery(s, query, mintToken, parseUrl, parseLink, probe, Corrected)
            || (written.Ended? && written.effect.completion == Thrown(NullPointerException))
  {
    var authToken := mintToken(StringHeader(s.headers, UsernameHeaderName));
    var container := StringHeader(s.headers, ContainerUriHeaderName);
    var written := LinkedDataResourceUrlAsWritten(authToken, container, probe, parseLink);
    if written.Success? {
      AsWrittenAgreesWhenItReturns(authToken, container, probe, parseLink);
    } else if written.error != NullPointerException {
      assert LinkedDataResourceUrl(authToken, container, probe, parseLink) == written;
    }
  }
}
