# umd-camel-processors, modelled in Dafny

This project models the decision logic and state effects of five pieces of the UMD
Libraries Camel processors:

- **ProxiedLinkedDataProvider** rewrites the URL LDPath fetches a resource from. A
  class-wide map sends an external resource URI to an internal, container-based URL.
  Any `#fragment` is cut off for the lookup and put back on the answer. An unmapped URI
  under the external repository base is moved onto the internal base.
- **LinkHeaders** is an ordered list of parsed `(rel, uri)` links, built from a list of
  header values or from the `link` headers of an HTTP response. It answers two queries:
  `getUriByRel` (the first link with that relation) and `contains` (relation equality
  plus a substring test on the URI).
- **LdpathProcessor** chooses the URL of a resource's RDF: the `describedby` target of
  a non-RDF resource, or the container-based URI. `process` then runs a fixed sequence
  of steps over five kinds of state: the cache keys, the proxy map, the HTTP client
  headers, the message and the exchange properties.
- **SparqlQueryProcessor** turns message headers into initial SPARQL variable bindings.
  It then chooses a results writer from the query form and the results-format name.
- **DescriptionURI** copies the first `describedby` link target of the `Link` header
  list into the `DescribedBy` header.

Java's `null` is `Option.None`. A thrown exception is a `Result.Failure` or a
`Completion.Thrown`.

Objects whose fields the code updates in place become classes:

- The provider's static fields become one shared `ProviderStatics` object.
- Camel's message and exchange, and the two processors, are classes.
- `process`, `buildRequestUrl`, `parseBindings`, `setInitialBindings`, `executeQuery`
  and the `Header[]` constructor are methods, each proved equal to a specification
  function. The lemmas are stated about those functions.

Foreign code is a parameter of the operations that call it:

- `Link.valueOf` is a `LinkParser`.
- `new URL` is a `UrlParser`.
- The HTTP HEAD probe is a `Prober`.
- LDPath evaluation plus Jackson is an `LdpathQuery`.
- Token minting is a `TokenMinter`.
- Jena's query parser, results-format lookup, writer registry and output rendering are
  parameters too.
- The environment variables `REPO_INTERNAL_URL` and `REPO_EXTERNAL_URL` are constructor
  arguments.

Some behaviour of the code is easy to misread, and the model keeps it as written:

- **A malformed Link value is not skipped.** The `IllegalArgumentException` of
  `Link.valueOf` ends the construction of the `LinkHeaders` (`FromListMeaning`,
  `FromHeaders`).
- **A resource URI that is not a URL still loses its cache entry.** `process` evicts
  the entry before it parses the URL, then returns normally (`MalformedUriReturnsEarly`).
  Only a URI without a `:`, which Sesame's `URIImpl` rejects, throws before the eviction.
- **A failed query leaves the proxy mapping behind.** LDPath and JSON errors are
  rethrown before `removeLinkedDataMapping` runs (`QueryErrorLeavesMapping`).
- **When the mapping is removed.** The comment on `setLinkedDataMapping` says
  `buildRequestUrl` removes it. In the code only `process` does;
  `BuildRequestUrl` changes nothing.
- **`process` calls `getLinkedDataResourceUrl` as written.** So it throws
  NullPointerException for a resource whose HEAD response has no `describedby` link
  (see "## Findings"). `ProcessEffect` takes the resolution as a parameter, so the
  same steps can also be stated over the corrected resolution, and
  `AsWrittenProcessAgrees` relates the two.

## Model

| member | source | states |
|---|---|---|
| JavaStrings.StartsWith | src/main/java/edu/umd/lib/ldpath/ProxiedLinkedDataProvider.java:99 | `startsWith`: true iff the string is the prefix followed by the rest, character by character |
| JavaStrings.Contains | src/main/java/edu/umd/lib/camel/utils/LinkHeaders.java:53 | `contains`: the text occurs somewhere, so it is no longer than the string; a prefix is contained |
| JavaStrings.Split | src/main/java/edu/umd/lib/camel/processors/SparqlQueryProcessor.java:71 | `split` with a limit gives between one part and `limit` parts |
| JavaStrings.EqualsIgnoreCase | src/main/java/edu/umd/lib/camel/utils/LinkHeaders.java:26 | `equalsIgnoreCase` with an ASCII literal: only strings of the literal's length match, and the literal itself does |
| JavaStrings.EqualsIgnoreCaseMeaning | src/main/java/edu/umd/lib/camel/utils/LinkHeaders.java:26 | a string equals an ASCII literal ignoring case iff it has the literal's length and each character is a case variant of the literal's: either case of a letter, dotted or dotless I for i, long s for s, the Kelvin sign for k, and the character itself otherwise |
| JavaStrings.NatToString | src/main/java/edu/umd/lib/camel/processors/LdpathProcessor.java:269 | the decimal text of a port is a non-empty run of digits |
| JavaStrings.IndexOf | src/main/java/edu/umd/lib/ldpath/ProxiedLinkedDataProvider.java:72 | `indexOf`: -1 exactly when the character is absent, otherwise its first position |
| JavaStrings.SplitJoin | src/main/java/edu/umd/lib/camel/processors/SparqlQueryProcessor.java:71 | `split` with a limit loses nothing: joining the parts with the separator gives the string back |
| JavaStrings.SplitThree | src/main/java/edu/umd/lib/camel/processors/SparqlQueryProcessor.java:71-74 | `split("-", 3)` of `a-b-rest`, when `a` and `b` have no dash, is `[a, b, rest]`; dashes in `rest` are kept |
| JavaStrings.NatToStringRoundTrip | src/main/java/edu/umd/lib/camel/processors/LdpathProcessor.java:269 | reading back the decimal text of a port gives the port |
| JavaStrings.ToLowerCase | src/main/java/edu/umd/lib/camel/processors/SparqlQueryProcessor.java:102 | `toLowerCase` keeps the length, lower-cases character by character, and leaves no ASCII capital in the result |
| JavaStrings.ToLowerCaseMatches | src/main/java/edu/umd/lib/camel/processors/SparqlQueryProcessor.java:102 | for a lower-case ASCII t, `n.toLowerCase()` equals t iff n spells t letter by letter in any mix of cases, the Kelvin sign standing for k |
| Urls.HostPort | src/main/java/edu/umd/lib/camel/processors/LdpathProcessor.java:264-273 | host alone when the port is -1; otherwise `host:port`, which reads back as exactly that host and port |
| Urls.HostPortRoundTrip | src/main/java/edu/umd/lib/camel/processors/LdpathProcessor.java:269 | `host + ":" + port` splits at its last colon into the host and the port |
| LinkHeaderUtils.FromList | src/main/java/edu/umd/lib/camel/utils/LinkHeaders.java:19-21 | the list constructor yields one link per value, or fails with IllegalArgumentException |
| LinkHeaderUtils.IsLinkHeader | src/main/java/edu/umd/lib/camel/utils/LinkHeaders.java:26 | a link header's name has four characters, and `link` itself is one |
| LinkHeaderUtils.IsLinkHeaderNames | src/main/java/edu/umd/lib/camel/utils/LinkHeaders.java:26 | a header is a link header iff its name is four characters: l or L, then i, I, dotted I or dotless I, then n or N, then k, K or the Kelvin sign |
| LinkHeaderUtils.LinkHeaderValues | src/main/java/edu/umd/lib/camel/utils/LinkHeaders.java:23-30 | the values kept by the `Header[]` loop are at most as many as the headers |
| LinkHeaderUtils.FromListMeaning | src/main/java/edu/umd/lib/camel/utils/LinkHeaders.java:19-21 | the list constructor succeeds iff every value parses; then it keeps every link in order with no filtering; otherwise it fails with the first rejected value's IllegalArgumentException |
| LinkHeaderUtils.FromListAppend | src/main/java/edu/umd/lib/camel/utils/LinkHeaders.java:19-21 | parsing a concatenation is parsing the two halves and concatenating the links |
| LinkHeaderUtils.FromHeaders | src/main/java/edu/umd/lib/camel/utils/LinkHeaders.java:23-30 | the `Header[]` loop builds the list constructor's result on the values of the headers named `link` |
| LinkHeaderUtils.LinkHeaderValuesAppend | src/main/java/edu/umd/lib/camel/utils/LinkHeaders.java:25-29 | the kept values of two header runs are the kept values of each, in order |
| LinkHeaderUtils.LinkHeaderValuesSkipsOthers | src/main/java/edu/umd/lib/camel/utils/LinkHeaders.java:26 | a header not named `link` contributes nothing, wherever it stands |
| LinkHeaderUtils.LinkHeaderValuesKeepsLinks | src/main/java/edu/umd/lib/camel/utils/LinkHeaders.java:25-29 | when every header is named `link`, every value is kept in its original position |
| LinkHeaderUtils.LinkHeaderValuesMembers | src/main/java/edu/umd/lib/camel/utils/LinkHeaders.java:25-29 | a value is kept iff some header named `link` (ignoring case) carries it |
| LinkHeaderUtils.LinkHeaderNamesExample | src/main/java/edu/umd/lib/camel/utils/LinkHeaders.java:26 | `Link`, `LINK` and `link` are link headers; `Links` and `Content-Type` are not |
| LinkHeaderUtils.FirstWithRel | src/main/java/edu/umd/lib/camel/utils/LinkHeaders.java:40 | the position of the first link with that relation, or -1 iff there is none |
| LinkHeaderUtils.GetUriByRel | src/main/java/edu/umd/lib/camel/utils/LinkHeaders.java:39-42 | null iff no link has the relation (exact match); otherwise the URI of the first such link in list order |
| LinkHeaderUtils.AnyMatch | src/main/java/edu/umd/lib/camel/utils/LinkHeaders.java:53 | true iff some link has the relation and a URI containing the text |
| LinkHeaderUtils.ContainsLink | src/main/java/edu/umd/lib/camel/utils/LinkHeaders.java:52-54 | `contains(rel, u)` iff some link has relation `rel` and a URI with `u` as a substring |
| LinkHeaderUtils.ContainsImpliesUriByRel | src/main/java/edu/umd/lib/camel/utils/LinkHeaders.java:39-54 | if `contains(rel, u)` then `getUriByRel(rel)` is not null |
| LinkHeaderUtils.HeadersArrayExample | src/test/java/edu/umd/lib/camel/utils/LinkHeadersTest.java:17-23 | of two Link headers and a Content-Type header, the two Link values are kept, in order |
| LinkHeaderUtils.QueriesExample | src/test/java/edu/umd/lib/camel/utils/LinkHeadersTest.java:25-29 | `describedby` gives foo, `notalinkrelation` gives null, `contains` is true for modelA and false for missingModel |
| ProxiedLinkedData.SplitFragment | src/main/java/edu/umd/lib/ldpath/ProxiedLinkedDataProvider.java:67-75 | key and fragment together are the URI; the key has no `#`; the fragment is empty or starts with `#` |
| ProxiedLinkedData.Rebase | src/main/java/edu/umd/lib/ldpath/ProxiedLinkedDataProvider.java:105-109 | the rewritten URL starts with the internal base's scheme and `://` and ends with the resource's path and query |
| ProxiedLinkedData.UnmappedRequestUrl | src/main/java/edu/umd/lib/ldpath/ProxiedLinkedDataProvider.java:86-112 | the unmapped branch gives one URL or an IllegalArgumentException, and `Malformed URL: ` plus the URI when the URI is not a URL |
| ProxiedLinkedData.RequestUrl | src/main/java/edu/umd/lib/ldpath/ProxiedLinkedDataProvider.java:66-113 | every answer of `buildRequestUrl` is a list of exactly one URL |
| ProxiedLinkedData.ProviderStatics.constructor | src/main/java/edu/umd/lib/ldpath/ProxiedLinkedDataProvider.java:31-35 | class initialisation: an empty map, both bases null |
| ProxiedLinkedData.ProxiedLinkedDataProvider.constructor | src/main/java/edu/umd/lib/ldpath/ProxiedLinkedDataProvider.java:38-52 | the bases come from the environment values, defaulting to `http://repository:8080/rest` and `http://localhost:8080/rest`; the shared map is untouched |
| ProxiedLinkedData.ProxiedLinkedDataProvider.BuildRequestUrl | src/main/java/edu/umd/lib/ldpath/ProxiedLinkedDataProvider.java:66-113 | the answer is `RequestUrl` of the current shared state, and nothing is modified |
| ProxiedLinkedData.ProxiedLinkedDataProvider.SetLinkedDataMapping | src/main/java/edu/umd/lib/ldpath/ProxiedLinkedDataProvider.java:123-125 | the shared map gains or overwrites exactly that key (null allowed); the bases stay |
| ProxiedLinkedData.ProxiedLinkedDataProvider.RemoveLinkedDataMapping | src/main/java/edu/umd/lib/ldpath/ProxiedLinkedDataProvider.java:127-129 | the shared map loses exactly that key; removing an absent key changes nothing |
| ProxiedLinkedData.MappedKeyResolves | src/main/java/edu/umd/lib/ldpath/ProxiedLinkedDataProvider.java:77-82 | after mapping a fragment-free key to `v`, the answer for the key is exactly `[v]` |
| ProxiedLinkedData.FragmentPreserved | src/main/java/edu/umd/lib/ldpath/ProxiedLinkedDataProvider.java:69-75 | with `k` mapped to `v`, the answer for `k#f` is `[v#f]` |
| ProxiedLinkedData.MappedIgnoresParser | src/main/java/edu/umd/lib/ldpath/ProxiedLinkedDataProvider.java:77-96 | a mapped URI never reaches URL parsing: any two parsers give the same answer |
| ProxiedLinkedData.RemovedKeyUnmapped | src/main/java/edu/umd/lib/ldpath/ProxiedLinkedDataProvider.java:127-129 | after removal of the key, every URI with that key takes the unmapped branch |
| ProxiedLinkedData.NullMappingUnmapped | src/main/java/edu/umd/lib/ldpath/ProxiedLinkedDataProvider.java:77-84 | a key mapped to null is treated as unmapped |
| ProxiedLinkedData.UnmappedMalformedFails | src/main/java/edu/umd/lib/ldpath/ProxiedLinkedDataProvider.java:90-96 | an unmapped URI that is not a URL raises `IllegalArgumentException("Malformed URL: " + uri)` |
| ProxiedLinkedData.UnmappedForeignUnchanged | src/main/java/edu/umd/lib/ldpath/ProxiedLinkedDataProvider.java:98-102 | an unmapped URL outside the external base comes back unchanged as a single element, fragment included |
| ProxiedLinkedData.UnmappedExternalRebased | src/main/java/edu/umd/lib/ldpath/ProxiedLinkedDataProvider.java:104-112 | an unmapped URL under the external base becomes: internal scheme, host and port, then the resource's path, then its query, and no fragment |
| ProxiedLinkedData.RebaseUsesPathAndQueryOnly | src/main/java/edu/umd/lib/ldpath/ProxiedLinkedDataProvider.java:105-109 | the rewritten URL depends on the resource only through its path and query |
| ProxiedLinkedData.MappingSharedByInstances | src/main/java/edu/umd/lib/ldpath/ProxiedLinkedDataProvider.java:31 | a mapping set through one provider is what a second provider resolves |
| Ldpath.BearerHeader | src/main/java/edu/umd/lib/camel/processors/LdpathProcessor.java:127 | the Authorization header value is `Bearer ` followed by the token |
| Ldpath.LinkedDataResourceUrlAsWritten | src/main/java/edu/umd/lib/camel/processors/LdpathProcessor.java:199-234 | the code as written: a null container URI throws NullPointerException; an IOException gives the container URI; any other answer comes from a response with a NonRDFSource `type` link |
| Ldpath.LinkedDataResourceUrl | src/main/java/edu/umd/lib/camel/processors/LdpathProcessor.java:199-234 | corrected resolution: a null container URI throws NullPointerException (and only then); an IOException from the probe gives the container URI; every other failure is the response's Link parse failure |
| Ldpath.NonRdfResolvesToDescribedBy | src/main/java/edu/umd/lib/camel/processors/LdpathProcessor.java:219-227 | with a NonRDFSource `type` link and a `describedby` link, the result is the first `describedby` target |
| Ldpath.RdfResolvesToContainer | src/main/java/edu/umd/lib/camel/processors/LdpathProcessor.java:221-233 | without a NonRDFSource `type` link, the result is the container URI unchanged |
| Ldpath.AsWrittenAgreesWhenItReturns | src/main/java/edu/umd/lib/camel/processors/LdpathProcessor.java:199-234 | whenever the code as written returns, it returns what the corrected resolution returns |
| Ldpath.AsWrittenThrowsWithoutDescribedBy | src/main/java/edu/umd/lib/camel/processors/LdpathProcessor.java:220-223 | for every response without a `describedby` link, the code as written throws NullPointerException and the corrected resolution gives the container URI |
| Ldpath.ContentTypeOnlyExample | src/main/java/edu/umd/lib/camel/processors/LdpathProcessor.java:213-220 | a response carrying only Content-Type makes the code as written throw, and the corrected one return the container URI |
| Ldpath.ForwardedHost | src/main/java/edu/umd/lib/camel/processors/LdpathProcessor.java:264-273 | the host when the port is -1, otherwise `host:port`, which reads back as that host and port |
| Ldpath.ClientHeaders | src/main/java/edu/umd/lib/camel/processors/LdpathProcessor.java:126-129 | three headers, in order: `Authorization: Bearer token`, `X-Forwarded-Host`, and `X-Forwarded-Proto` carrying the URL's protocol |
| Ldpath.QueryInput | src/main/java/edu/umd/lib/camel/processors/LdpathProcessor.java:141-155 | LDPath runs only on a resource URI that is a URL, with the program that was set |
| Ldpath.ProcessUntilQuery | src/main/java/edu/umd/lib/camel/processors/LdpathProcessor.java:104-152 | when process gets as far as LDPath, the message and properties are untouched, and LDPath sees the map with the resource URI mapped and the client headers just set |
| Ldpath.ProcessEffect | src/main/java/edu/umd/lib/camel/processors/LdpathProcessor.java:104-176 | with either resolution: a null resource URI throws NullPointerException, and a URI without `:` throws `IllegalArgumentException("Not a valid (absolute) URI: " + uri)`, both with nothing changed; a run that throws leaves headers, body and properties as they were |
| Ldpath.LdpathProcessor.constructor | src/main/java/edu/umd/lib/camel/processors/LdpathProcessor.java:84-101 | empty cache, no client headers, no program, and a provider over the shared static state |
| Ldpath.LdpathProcessor.SetQuery | src/main/java/edu/umd/lib/camel/processors/LdpathProcessor.java:289-291 | sets the program and nothing else |
| Ldpath.LdpathProcessor.Process | src/main/java/edu/umd/lib/camel/processors/LdpathProcessor.java:104-176 | the new cache, map, client headers, message and properties are exactly those `ProcessEffect` gives with `getLinkedDataResourceUrl` as written; the bases and the program stay |
| Ldpath.MalformedUriReturnsEarly | src/main/java/edu/umd/lib/camel/processors/LdpathProcessor.java:113-124 | a resource URI with a `:` that is not a URL: the cache entry is evicted, process returns normally, and nothing else changes |
| Ldpath.CacheEntryEvicted | src/main/java/edu/umd/lib/camel/processors/LdpathProcessor.java:111-113 | once the resource URI passes the `URIImpl` check, its cache entry is removed on every path; only LDPath's own fetches can add entries back |
| Ldpath.MappingVisibleToQuery | src/main/java/edu/umd/lib/camel/processors/LdpathProcessor.java:141-155 | while LDPath runs, the provider resolves the fragment-free resource URI to exactly the linked-data URL |
| Ldpath.ClientHeadersSet | src/main/java/edu/umd/lib/camel/processors/LdpathProcessor.java:126-138 | once the resource URI is a URL, the client sends Authorization, X-Forwarded-Host and X-Forwarded-Proto |
| Ldpath.NormalCompletionEffects | src/main/java/edu/umd/lib/camel/processors/LdpathProcessor.java:166-175 | a normal end is either the malformed-URI return, or: mapping removed, body is the JSON, Content-Type is `application/json`, charset is `UTF-8`, and every other header and property is unchanged |
| Ldpath.QueryErrorLeavesMapping | src/main/java/edu/umd/lib/camel/processors/LdpathProcessor.java:154-162 | an LDPath or JSON error is rethrown as RuntimeCamelException, and the resource URI stays mapped |
| Ldpath.OtherMappingsUnchanged | src/main/java/edu/umd/lib/camel/processors/LdpathProcessor.java:144-167 | process changes the provider's map only at the resource URI's key |
| Ldpath.AsWrittenProcessThrowsWithoutDescribedBy | src/main/java/edu/umd/lib/camel/processors/LdpathProcessor.java:113-141 | as written, a HEAD response without a `describedby` link makes process throw NullPointerException after the eviction and the client headers, with no mapping set and message and properties untouched; with the corrected resolution LDPath runs with the container URI mapped |
| Ldpath.AsWrittenProcessAgrees | src/main/java/edu/umd/lib/camel/processors/LdpathProcessor.java:104-176 | whenever process as written ends other than with NullPointerException, and so whenever it completes, its effect is that of process with the corrected resolution |
| Ldpath.AsWrittenStageAgrees | src/main/java/edu/umd/lib/camel/processors/LdpathProcessor.java:104-141 | up to the LDPath evaluation, process as written reaches the same stage as with the corrected resolution, unless it has ended with NullPointerException |
| SparqlQuery.ExtractBindingName | src/main/java/edu/umd/lib/camel/processors/SparqlQueryProcessor.java:70-75 | the name is a suffix of the key that leaves room for two dashes before it; a key with fewer than three parts throws ArrayIndexOutOfBoundsException |
| SparqlQuery.Bind | src/main/java/edu/umd/lib/camel/processors/SparqlQueryProcessor.java:53-64 | one header step only adds or overwrites a binding, and can fail only with ClassCastException |
| SparqlQuery.Bindings | src/main/java/edu/umd/lib/camel/processors/SparqlQueryProcessor.java:45-68 | building the binding map can fail only with ClassCastException: the name extraction never throws for a binding key |
| SparqlQuery.SelectWriter | src/main/java/edu/umd/lib/camel/processors/SparqlQueryProcessor.java:100-111 | a SELECT query gets the standard formatter, or the header-less CSV writer only when the format lookup found nothing; otherwise `IllegalArgumentException("Unknown resultsFormatName: " + name)` |
| SparqlQuery.WriterFor | src/main/java/edu/umd/lib/camel/processors/SparqlQueryProcessor.java:95-125 | only IllegalArgumentException escapes; a SELECT gets a results writer and a CONSTRUCT a model writer |
| SparqlQuery.BindingPrefixesExclusive | src/main/java/edu/umd/lib/camel/processors/SparqlQueryProcessor.java:53-59 | no key matches both the Literal and the URI pattern |
| SparqlQuery.ExtractBindingNameOfBindingKey | src/main/java/edu/umd/lib/camel/processors/SparqlQueryProcessor.java:70-75 | for a binding key, `split("-", 3)[2]` is everything after the prefix, dashes included |
| SparqlQuery.ParseBindings | src/main/java/edu/umd/lib/camel/processors/SparqlQueryProcessor.java:45-68 | the loop over the headers builds exactly `Bindings` of the entries |
| SparqlQuery.BindingsStopAtFailure | src/main/java/edu/umd/lib/camel/processors/SparqlQueryProcessor.java:50-65 | an exception on one header ends parseBindings with that exception |
| SparqlQuery.BindingsFailure | src/main/java/edu/umd/lib/camel/processors/SparqlQueryProcessor.java:55-61 | parseBindings fails iff some binding header's value is not a string, and then with ClassCastException |
| SparqlQuery.BindStep | src/main/java/edu/umd/lib/camel/processors/SparqlQueryProcessor.java:53-64 | one header step: a non-binding header changes nothing, a binding header with a non-string value fails with ClassCastException, any other binding header puts its literal or resource node under its name |
| SparqlQuery.BindingsDomain | src/main/java/edu/umd/lib/camel/processors/SparqlQueryProcessor.java:50-65 | a name is bound iff some header matching `^CamelSparqlQueryBinding-Literal-.+` or `^CamelSparqlQueryBinding-URI-.+` yields it; every other header is ignored |
| SparqlQuery.BindingsLastWins | src/main/java/edu/umd/lib/camel/processors/SparqlQueryProcessor.java:57-63 | the node bound to a name comes from the last header with that name |
| SparqlQuery.NonBindingHeadersIgnored | src/main/java/edu/umd/lib/camel/processors/SparqlQueryProcessor.java:53-59 | inserting non-binding headers anywhere in the iteration order changes nothing |
| SparqlQuery.BindingKeyName | src/main/java/edu/umd/lib/camel/processors/SparqlQueryProcessor.java:53-59 | prefix plus a non-empty name without line terminators is a binding key for that name |
| SparqlQuery.BindingsExample | src/main/java/edu/umd/lib/camel/processors/SparqlQueryProcessor.java:45-75 | a literal binding, a URI binding named `my-subject`, and `CamelFcrepoUri` ignored |
| SparqlQuery.InitialBinding | src/main/java/edu/umd/lib/camel/processors/SparqlQueryProcessor.java:130-137 | an initial binding is installed iff the binding map is non-empty, and it is that map |
| SparqlQuery.SetInitialBindings | src/main/java/edu/umd/lib/camel/processors/SparqlQueryProcessor.java:130-138 | the copying loop installs exactly `InitialBinding` of the bindings |
| SparqlQuery.LowerCsvWithoutHeader | src/main/java/edu/umd/lib/camel/processors/SparqlQueryProcessor.java:31 | the lower case of `csvWithoutHeader` is `csvwithoutheader` |
| SparqlQuery.WriterForSupported | src/main/java/edu/umd/lib/camel/processors/SparqlQueryProcessor.java:95-125 | a writer is found iff the query is SELECT with a known format or a name that spells `csvwithoutheader` letter by letter in any mix of cases (the Kelvin sign allowed for k), or CONSTRUCT with a registered writer; otherwise IllegalArgumentException |
| SparqlQuery.OtherFormsRejected | src/main/java/edu/umd/lib/camel/processors/SparqlQueryProcessor.java:122-124 | any query that is neither SELECT nor CONSTRUCT throws `IllegalArgumentException("Only SELECT and CONSTRUCT queries are allowed as values of query")` |
| SparqlQuery.CsvWithoutHeaderExamples | src/main/java/edu/umd/lib/camel/processors/SparqlQueryProcessor.java:100-104 | `CSVWITHOUTHEADER` and `csvWithoutHeader` both select the header-less CSV writer |
| SparqlQuery.UnknownFormatExamples | src/main/java/edu/umd/lib/camel/processors/SparqlQueryProcessor.java:105-107 | an unknown name, and a null one, are rejected with the name (or `null`) in the message |
| SparqlQuery.QueryOutcome | src/main/java/edu/umd/lib/camel/processors/SparqlQueryProcessor.java:77-128 | a successful query carries `InitialBinding` of the successfully parsed bindings |
| SparqlQuery.Entries | src/main/java/edu/umd/lib/camel/processors/SparqlQueryProcessor.java:50 | the header entries in iteration order, each key with its value |
| SparqlQuery.SparqlQueryProcessor.constructor | src/main/java/edu/umd/lib/camel/processors/SparqlQueryProcessor.java:37 | query and results-format name start null |
| SparqlQuery.SparqlQueryProcessor.SetQuery | src/main/java/edu/umd/lib/camel/processors/SparqlQueryProcessor.java:144-146 | sets the query and nothing else |
| SparqlQuery.SparqlQueryProcessor.SetResultsFormatName | src/main/java/edu/umd/lib/camel/processors/SparqlQueryProcessor.java:152-154 | sets the results-format name and nothing else |
| SparqlQuery.SparqlQueryProcessor.ExecuteQuery | src/main/java/edu/umd/lib/camel/processors/SparqlQueryProcessor.java:77-128 | parseBindings, then query parsing, then dispatch, with the result `QueryOutcome` states |
| SparqlQuery.SparqlQueryProcessor.Process | src/main/java/edu/umd/lib/camel/processors/SparqlQueryProcessor.java:40-43 | the body becomes the rendered output, or stays when an exception escapes; headers are unchanged |
| SparqlQuery.BadBindingValueFailsFirst | src/main/java/edu/umd/lib/camel/processors/SparqlQueryProcessor.java:87-90 | a non-string binding value fails executeQuery with ClassCastException, before the query is parsed |
| SparqlQuery.SupportedQuerySucceeds | src/main/java/edu/umd/lib/camel/processors/SparqlQueryProcessor.java:95-137 | a parsed, supported query succeeds, with an initial binding iff some binding was given |
| DescriptionUri.DescribedByEffect | src/main/java/edu/umd/lib/camel/processors/DescriptionURI.java:20-36 | a missing Link list throws NullPointerException, and only then; on success only `DescribedBy` may change, to a string |
| DescriptionUri.Process | src/main/java/edu/umd/lib/camel/processors/DescriptionURI.java:20-36 | the headers become those `DescribedByEffect` gives, or stay when it throws; the body is untouched |
| DescriptionUri.DescribedBySetToFirst | src/main/java/edu/umd/lib/camel/processors/DescriptionURI.java:30-35 | with a `describedby` link, `DescribedBy` is set to the first such URI in list order |
| DescriptionUri.NoDescribedByUnchanged | src/main/java/edu/umd/lib/camel/processors/DescriptionURI.java:32-33 | with no `describedby` link, the headers are exactly as they were |
| DescriptionUri.UnparsableLinkFails | src/main/java/edu/umd/lib/camel/processors/DescriptionURI.java:30 | an unparsable Link value ends process with IllegalArgumentException |
| DescriptionUri.DescribedByIdempotent | src/main/java/edu/umd/lib/camel/processors/DescriptionURI.java:32-35 | running process again on its own output changes nothing |
| DescriptionUri.TestLinksExample | src/main/java/edu/umd/lib/camel/processors/DescriptionURI.java:30-35 | the Link values of LinkHeadersTest set `DescribedBy` to `http://example.com/foo` |

## Left out

- Token minting (`LdpathProcessor.getAuthToken`, `AddBearerAuthorizationProcessor`) depends on an `AuthTokenService` that is not part of this model, and on the clock. It is a `TokenMinter` parameter.
- The HTTP HEAD probe and `HttpClientBuilder` are network I/O. The probe is a `Prober` that answers with an IOException or a header list. The IllegalArgumentException `new HttpHead` raises for an unparsable URI is not modelled.
- LDPath evaluation, the LDCache and Infinispan caching backend, and Jackson serialisation are foreign libraries. They are an `LdpathQuery` that returns a result and the set of resources it cached. The cache is only a set of keys.
- The client configuration's endpoint and provider registration (LdpathProcessor.java:85-98) is library wiring and is not modelled.
- Link header syntax (RFC 8288, section 3) belongs to JAX-RS `Link.valueOf`. Links are parsed `(rel, uri)` pairs. A link without a `rel` (where `getRel()` is null and the queries would throw NullPointerException) is not modelled.
- The `(String)` cast in the list constructor is not modelled: the model's list values are strings.
- `java.net.URL` is a `UrlParser` that gives the URL's components. The user-info part is not modelled.
- UnmappedRequestUrl: `new URIBuilder(repoInternalUrl)` is a separate `UriParser` whose failure becomes an IllegalArgumentException with the parser's message. A failure of `build()` is not modelled.
- `URIBuilder` normalisation and percent-encoding are not modelled. So is any user-info or fragment of the internal base. `Rebase` concatenates scheme, host, port, path and query.
- Sesame's `URIImpl` check at LdpathProcessor.java:113 is modelled only as "the URI contains a `:`". Its other checks are not modelled.
- Camel's case-insensitive header keys and its type conversion in `getHeader(name, type)` are not modelled. A value of another type reads as null.
- Header values other than strings and string lists are not modelled.
- The iteration order of the message headers in `parseBindings` is given as a parameter, not computed.
- The Java `assert` statements at LdpathProcessor.java:163-164 are not modelled; they are disabled by default.
- Jena is parameters: reading the body as RDF/XML (SparqlQueryProcessor.java:84), `QueryFactory.create`, query execution, `ResultSetFormatter`, `CsvWithoutHeaderOutput` and `Model.write`. A failure while reading the RDF is not modelled.
- JavaStrings.ToLowerCase: exact only where it is compared with an ASCII string, as at SparqlQueryProcessor.java:102, in a locale other than Turkish. It does not expand U+0130 into two characters.
- JavaStrings.EqualsIgnoreCase: stated only with an ASCII literal on one side, which is how LinkHeaders.java:26 uses it.
- The test subclass `TestLdpathProcessor` returns the container URI and may store a null mapping. The model's resolution never yields null, but `SetLinkedDataMapping` accepts a null value.
- `DeadLetterProcessor`, logging, `getName`, the getters, and thread safety of the unsynchronised static map are not modelled. They are plumbing, or concurrency, which is out of scope.

## Findings

| source | as written | input that shows it | evidently intended | confidence | as-written member | corrected member |
|---|---|---|---|---|---|---|
| src/main/java/edu/umd/lib/camel/processors/LdpathProcessor.java:220-223 | `getUriByRel("describedby").toString()` is called before the null test, so a response without a `describedby` link throws NullPointerException (only IOException is caught), and the test `describedBy != null` can never see null | a HEAD response whose only header is `Content-Type: text/turtle` (an ordinary RDF container), see `Ldpath.ContentTypeOnlyExample` | fall through to the container-based URI, as the null test and the method's comment say | not executed | Ldpath.LinkedDataResourceUrlAsWritten | Ldpath.LinkedDataResourceUrl |
