/**
 * ProxiedLinkedDataProvider: the request-URL rewriting that lets an "external"
 * resource URI be fetched from an "internal", container-based URL. A class-wide map
 * goes from external resource URI to the internal URL of its RDF; an unmapped URI
 * under the external repository base is moved onto the internal base.
 */
module ProxiedLinkedData {
  import opened Java
  import opened JavaStrings
  import opened Urls

  const ProviderName := "Proxied Linked Data"

  /** Used when REPO_INTERNAL_URL is unset. */
  const DefaultInternalUrl := "http://repository:8080/rest"

  /** Used when REPO_EXTERNAL_URL is unset. */
  const DefaultExternalUrl := "http://localhost:8080/rest"

  /**
   * The map key and the fragment of a resource URI: the URI is cut at its first '#',
   * and the fragment keeps its '#' (it is "" when there is no '#').
   */
  function SplitFragment(uri: string): (kf: (string, string))
    ensures kf.0 + kf.1 == uri
    ensures '#' !in kf.0
    ensures kf.1 == [] || kf.1[0] == '#'
  {
    var i := IndexOf(uri, '#');
    if i == -1 then (uri, "")
    else
      assert uri[..i] + uri[i..] == uri;
      (uri[..i], uri[i..])
  }

  /**
   * The internal base with the resource's path and query: scheme, host and port come
   * from the base, the path is replaced by the resource's path, the query is the
   * resource's, and no fragment is added.
   */
  function Rebase(base: Url, resource: Url): (r: string)
    ensures StartsWith(r, base.protocol + "://")
    ensures var tail := resource.path + QuerySuffix(resource.query);
            |tail| <= |r| && r[|r| - |tail|..] == tail
  {
    var scheme := base.protocol + "://";
    var tail := resource.path + QuerySuffix(resource.query);
    var r := scheme + (HostPort(base.host, base.port) + tail);
    assert r[..|scheme|] == scheme;
    assert r[|r| - |tail|..] == tail;
    r
  }

  /**
   * What buildRequestUrl answers for a URI the map does not resolve: the resource is
   * parsed as a java.net.URL, the internal base by `new URIBuilder`, whose
   * URISyntaxException arrives as an IllegalArgumentException.
   */
  function UnmappedRequestUrl(internalBase: string, externalBase: string, parse: UrlParser, parseBase: UriParser,
                              uri: string): (r: Result<seq<string>, Exception>)
    ensures r.Success? ==> |r.value| == 1
    ensures r.Failure? ==> r.error.IllegalArgumentException?
    ensures parse(uri).Failure? ==> r == Failure(IllegalArgumentException("Malformed URL: " + uri))
  {
    match parse(uri)
    case Failure(_) => Failure(IllegalArgumentException("Malformed URL: " + uri))
    case Success(url) =>
      if !StartsWith(url.external, externalBase) then Success([url.external])
      else
        match parseBase(internalBase)
        case Failure(message) => Failure(IllegalArgumentException(message))
        case Success(base) => Success([Rebase(base, url)])
  }

  /**
   * What buildRequestUrl answers for uri, given the map and the two bases: the mapped
   * URL followed by the fragment when the fragment-free key maps to a non-null URL,
   * otherwise the unmapped answer. Every answer is a list of exactly one URL.
   */
  function RequestUrl(linkedDataMap: map<string, Option<string>>, internalBase: string, externalBase: string,
                      parse: UrlParser, parseBase: UriParser, uri: string): (r: Result<seq<string>, Exception>)
    ensures r.Success? ==> |r.value| == 1
  {
    var (key, fragment) := SplitFragment(uri);
    if key in linkedDataMap && linkedDataMap[key].Some? then Success([linkedDataMap[key].value + fragment])
    else UnmappedRequestUrl(internalBase, externalBase, parse, parseBase, uri)
  }

  /** The class-wide (static) fields of ProxiedLinkedDataProvider, one object shared by every instance. */
  class ProviderStatics {
    var linkedDataMap: map<string, Option<string>>
    var repoInternalUrl: Option<string>
    var repoExternalUrl: Option<string>

    /** Class initialisation: an empty map, and bases still null until a provider is constructed. */
    constructor ()
      ensures linkedDataMap == map[] && repoInternalUrl == None && repoExternalUrl == None
    {
      linkedDataMap := map[];
      repoInternalUrl := None;
      repoExternalUrl := None;
    }

    /** Both bases have been set by a constructor. */
    predicate Configured()
      reads this
    {
      repoInternalUrl.Some? && repoExternalUrl.Some?
    }
  }

  class ProxiedLinkedDataProvider {
    const statics: ProviderStatics

    /**
     * Sets the class-wide bases from the REPO_INTERNAL_URL and REPO_EXTERNAL_URL
     * environment values (given here; None when unset), falling back to the defaults.
     */
    constructor (statics: ProviderStatics, internalEnv: Option<string>, externalEnv: Option<string>)
      modifies statics
      ensures this.statics == statics && statics.Configured()
      ensures statics.repoInternalUrl == Some(if internalEnv.Some? then internalEnv.value else DefaultInternalUrl)
      ensures statics.repoExternalUrl == Some(if externalEnv.Some? then externalEnv.value else DefaultExternalUrl)
      ensures statics.linkedDataMap == old(statics.linkedDataMap)
    {
      this.statics := statics;
      new;
      var repoInternalUrl := internalEnv;
      if repoInternalUrl.None? {
        repoInternalUrl := Some(DefaultInternalUrl);
      }
      statics.repoInternalUrl := repoInternalUrl;
      var repoExternalUrl := externalEnv;
      if repoExternalUrl.None? {
        repoExternalUrl := Some(DefaultExternalUrl);
      }
      statics.repoExternalUrl := repoExternalUrl;
    }

    /**
     * `buildRequestUrl(resourceUri, endpoint)`: reads the map and the bases and changes
     * nothing; the IllegalArgumentException of a malformed unmapped URI is a Failure.
     */
    method BuildRequestUrl(resourceUri: string, parse: UrlParser, parseBase: UriParser) returns (r: Result<seq<string>, Exception>)
      requires statics.Configured()
      ensures r == RequestUrl(statics.linkedDataMap, statics.repoInternalUrl.value, statics.repoExternalUrl.value,
                              parse, parseBase, resourceUri)
    {
      var linkedDataMapKey := resourceUri;
      var fragment := "";
      if '#' in linkedDataMapKey {
        var hashIndex := IndexOf(resourceUri, '#');
        fragment := resourceUri[hashIndex..];
        linkedDataMapKey := linkedDataMapKey[..hashIndex];
      }
      if linkedDataMapKey in statics.linkedDataMap {
        var linkedDataResourceUrl := statics.linkedDataMap[linkedDataMapKey];
        if linkedDataResourceUrl.Some? {
          return Success([linkedDataResourceUrl.value + fragment]);
        }
      }
      var resourceUrl := parse(resourceUri);
      if resourceUrl.Failure? {
        return Failure(IllegalArgumentException("Malformed URL: " + resourceUri));
      }
      if !StartsWith(resourceUrl.value.external, statics.repoExternalUrl.value) {
        return Success([resourceUrl.value.external]);
      }
      var base := parseBase(statics.repoInternalUrl.value);
      if base.Failure? {
        return Failure(IllegalArgumentException(base.error));
      }
      return Success([Rebase(base.value, resourceUrl.value)]);
    }

    /** `setLinkedDataMapping(resourceUri, linkedDataResourceUrl)`; a null URL is stored as None. */
    method SetLinkedDataMapping(resourceUri: string, linkedDataResourceUrl: Option<string>)
      modifies statics
      ensures statics.linkedDataMap == old(statics.linkedDataMap)[resourceUri := linkedDataResourceUrl]
      ensures statics.repoInternalUrl == old(statics.repoInternalUrl)
      ensures statics.repoExternalUrl == old(statics.repoExternalUrl)
    {
      statics.linkedDataMap := statics.linkedDataMap[resourceUri := linkedDataResourceUrl];
    }

    /** `removeLinkedDataMapping(resourceUri)`; removing an absent key changes nothing. */
    method RemoveLinkedDataMapping(resourceUri: string)
      modifies statics
      ensures statics.linkedDataMap == old(statics.linkedDataMap) - {resourceUri}
      ensures resourceUri !in old(statics.linkedDataMap) ==> statics.linkedDataMap == old(statics.linkedDataMap)
      ensures statics.repoInternalUrl == old(statics.repoInternalUrl)
      ensures statics.repoExternalUrl == old(statics.repoExternalUrl)
    {
      statics.linkedDataMap := statics.linkedDataMap - {resourceUri};
    }
  }

  // ---- properties of the rewriting ----

  /** A fragment-free key mapped to url resolves to exactly [url], whatever the URL parser does. */
  lemma MappedKeyResolves(m: map<string, Option<string>>, internalBase: string, externalBase: string,
                          parse: UrlParser, parseBase: UriParser, key: string, url: string)
    requires '#' !in key
    ensures RequestUrl(m[key := Some(url)], internalBase, externalBase, parse, parseBase, key) == Success([url])
  {
    assert IndexOf(key, '#') == -1;
    assert url + "" == url;
  }

  /** The fragment is cut at the first '#' and re-appended, '#' included, to the mapped URL. */
  lemma FragmentPreserved(m: map<string, Option<string>>, internalBase: string, externalBase: string,
                          parse: UrlParser, parseBase: UriParser, key: string, fragment: string, url: string)
    requires '#' !in key
    ensures RequestUrl(m[key := Some(url)], internalBase, externalBase, parse, parseBase, key + "#" + fragment)
            == Success([url + "#" + fragment])
  {
    var uri := key + "#" + fragment;
    assert uri[|key|] == '#';
    assert uri[..|key|] == key;
    assert IndexOf(uri, '#') == |key|;
    assert uri[|key|..] == "#" + fragment;
    assert url + ("#" + fragment) == url + "#" + fragment;
  }

  /** A mapped URI never reaches URL parsing: the answer is the same under any two pairs of parsers. */
  lemma MappedIgnoresParser(m: map<string, Option<string>>, internalBase: string, externalBase: string,
                            parse1: UrlParser, parseBase1: UriParser, parse2: UrlParser, parseBase2: UriParser,
                            uri: string)
    requires SplitFragment(uri).0 in m && m[SplitFragment(uri).0].Some?
    ensures RequestUrl(m, internalBase, externalBase, parse1, parseBase1, uri)
            == RequestUrl(m, internalBase, externalBase, parse2, parseBase2, uri)
  {
  }

  /** After the key is removed, every URI with that key takes the unmapped branch. */
  lemma RemovedKeyUnmapped(m: map<string, Option<string>>, internalBase: string, externalBase: string,
                           parse: UrlParser, parseBase: UriParser, uri: string)
    ensures RequestUrl(m - {SplitFragment(uri).0}, internalBase, externalBase, parse, parseBase, uri)
            == UnmappedRequestUrl(internalBase, externalBase, parse, parseBase, uri)
  {
  }

  /** A key mapped to null is treated as unmapped. */
  lemma NullMappingUnmapped(m: map<string, Option<string>>, internalBase: string, externalBase: string,
                            parse: UrlParser, parseBase: UriParser, uri: string)
    ensures RequestUrl(m[SplitFragment(uri).0 := None], internalBase, externalBase, parse, parseBase, uri)
            == UnmappedRequestUrl(internalBase, externalBase, parse, parseBase, uri)
  {
  }

  /** An unmapped URI that is not a URL raises IllegalArgumentException("Malformed URL: " + uri). */
  lemma UnmappedMalformedFails(m: map<string, Option<string>>, internalBase: string, externalBase: string,
                               parse: UrlParser, parseBase: UriParser, uri: string)
    requires SplitFragment(uri).0 !in m
    requires parse(uri).Failure?
    ensures RequestUrl(m, internalBase, externalBase, parse, parseBase, uri) == Failure(IllegalArgumentException("Malformed URL: " + uri))
  {
  }

  /**
   * An unmapped URL outside the external base comes back as the URL's own text, so a
   * URL whose text is the URI itself comes back unchanged, fragment included.
   */
  lemma UnmappedForeignUnchanged(m: map<string, Option<string>>, internalBase: string, externalBase: string,
                                 parse: UrlParser, parseBase: UriParser, uri: string)
    requires SplitFragment(uri).0 !in m
    requires parse(uri).Success? && parse(uri).value.external == uri
    requires !StartsWith(uri, externalBase)
    ensures RequestUrl(m, internalBase, externalBase, parse, parseBase, uri) == Success([uri])
  {
  }

  /**
   * An unmapped URL under the external base is rewritten onto the internal base: the
   * answer starts with the base's scheme, host and port, then the resource's path, then
   * its query; nothing of the resource's fragment or of the external base remains.
   */
  lemma UnmappedExternalRebased(m: map<string, Option<string>>, internalBase: string, externalBase: string,
                                parse: UrlParser, parseBase: UriParser, uri: string)
    requires SplitFragment(uri).0 !in m
    requires parse(uri).Success? && StartsWith(parse(uri).value.external, externalBase)
    requires parseBase(internalBase).Success?
    ensures var base, url := parseBase(internalBase).value, parse(uri).value;
            RequestUrl(m, internalBase, externalBase, parse, parseBase, uri)
            == Success([base.protocol + "://" + HostPort(base.host, base.port) + url.path + QuerySuffix(url.query)])
  {
    var base, url := parseBase(internalBase).value, parse(uri).value;
    var scheme, hostPort, tail := base.protocol + "://", HostPort(base.host, base.port), url.path + QuerySuffix(url.query);
    assert scheme + (hostPort + tail) == scheme + hostPort + url.path + QuerySuffix(url.query);
  }

  /** The rewritten URL depends on the resource only through its path and query. */
  lemma RebaseUsesPathAndQueryOnly(base: Url, a: Url, b: Url)
    requires a.path == b.path && a.query == b.query
    ensures Rebase(base, a) == Rebase(base, b)
  {
  }

  /**
   * The map is class-wide: a mapping set through one provider is what another provider
   * built on the same static state resolves.
   */
  method MappingSharedByInstances(statics: ProviderStatics, parse: UrlParser, parseBase: UriParser,
                                  key: string, url: string)
    returns (r: Result<seq<string>, Exception>)
    requires '#' !in key
    modifies statics
    ensures r == Success([url])
  {
    var first := new ProxiedLinkedDataProvider(statics, None, None);
    var second := new ProxiedLinkedDataProvider(statics, None, None);
    first.SetLinkedDataMapping(key, Some(url));
    r := second.BuildRequestUrl(key, parse, parseBase);
    MappedKeyResolves(old(statics.linkedDataMap), DefaultInternalUrl, DefaultExternalUrl, parse, parseBase, key, url);
  }
}
