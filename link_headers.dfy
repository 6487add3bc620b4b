/**
 * LinkHeaders: an ordered, never-modified list of parsed Link header values, and
 * the two questions asked of it. Parsing one header value into a (rel, uri) pair
 * follows RFC 8288 (Web Linking), section 3, and is done by the JAX-RS library
 * (`Link.valueOf`), which is a parameter here.
 */
module LinkHeaderUtils {
  import opened Java
  import opened JavaStrings

  /** A parsed link: its relation (`getRel()`) and its target (`getUri().toString()`). */
  datatype Link = Link(rel: string, uri: string)

  /** An HTTP response header (`org.apache.http.Header`). */
  datatype HttpHeader = HttpHeader(name: string, value: string)

  /** `Link.valueOf(value)`: the parsed link, or the IllegalArgumentException's message. */
  type LinkParser = string -> Result<Link, string>

  /** The final list of links a LinkHeaders object holds. */
  datatype LinkHeaders = LinkHeaders(links: seq<Link>)

  // ---- the List<?> constructor ----

  /**
   * `new LinkHeaders(list)`: every value parsed, in order; the first value the parser
   * rejects ends construction with its IllegalArgumentException.
   */
  function FromList(values: seq<string>, parse: LinkParser): (r: Result<LinkHeaders, Exception>)
    ensures r.Success? ==> |r.value.links| == |values|
    ensures r.Failure? ==> r.error.IllegalArgumentException?
  {
    if |values| == 0 then Success(LinkHeaders([]))
    else match parse(values[0])
      case Failure(message) => Failure(IllegalArgumentException(message))
      case Success(first) =>
        match FromList(values[1..], parse)
        case Failure(e) => Failure(e)
        case Success(rest) => Success(LinkHeaders([first] + rest.links))
  }

  /**
   * The list constructor succeeds exactly when every value parses, and then holds every
   * parsed link in the order of the values; otherwise it fails with the exception of the
   * first value the parser rejects.
   */
  lemma {:induction false} FromListMeaning(values: seq<string>, parse: LinkParser)
    ensures FromList(values, parse).Success? <==> forall i | 0 <= i < |values| :: parse(values[i]).Success?
    ensures FromList(values, parse).Success? ==> |FromList(values, parse).value.links| == |values|
    ensures FromList(values, parse).Success? ==>
              forall i | 0 <= i < |values| :: FromList(values, parse).value.links[i] == parse(values[i]).value
    ensures FromList(values, parse).Failure? ==> exists i | 0 <= i < |values| ::
              parse(values[i]).Failure? && FromList(values, parse).error == IllegalArgumentException(parse(values[i]).error) &&
              forall j | 0 <= j < i :: parse(values[j]).Success?
  {
    if |values| > 0 {
      var tail := values[1..];
      FromListMeaning(tail, parse);
      forall i | 0 <= i < |tail| ensures tail[i] == values[i + 1] {
      }
      if parse(values[0]).Failure? {
        assert parse(values[0]).Failure? && FromList(values, parse).error == IllegalArgumentException(parse(values[0]).error);
      } else if FromList(tail, parse).Failure? {
        var i :| 0 <= i < |tail| && parse(tail[i]).Failure? &&
                 FromList(tail, parse).error == IllegalArgumentException(parse(tail[i]).error) &&
                 forall j | 0 <= j < i :: parse(tail[j]).Success?;
        assert forall j | 0 <= j < i + 1 :: parse(values[j]).Success? by {
          forall j | 0 <= j < i + 1 ensures parse(values[j]).Success? {
            if j > 0 {
              assert values[j] == tail[j - 1];
            }
          }
        }
        assert parse(values[i + 1]).Failure?;
      } else {
        var links := FromList(values, parse).value.links;
        assert links == [parse(values[0]).value] + FromList(tail, parse).value.links;
        forall i | 0 <= i < |values| ensures parse(values[i]).Success? {
          if i > 0 {
            assert values[i] == tail[i - 1];
          }
        }
      }
    }
  }

  /** Parsing two runs of values one after the other is parsing their concatenation. */
  lemma {:induction false} FromListAppend(a: seq<string>, b: seq<string>, parse: LinkParser)
    ensures FromList(a + b, parse) ==
      match FromList(a, parse)
      case Failure(e) => Failure(e)
      case Success(x) =>
        match FromList(b, parse)
        case Failure(e) => Failure(e)
        case Success(y) => Success(LinkHeaders(x.links + y.links))
  {
    if |a| > 0 {
      assert (a + b)[0] == a[0];
      assert (a + b)[1..] == a[1..] + b;
      FromListAppend(a[1..], b, parse);
      match parse(a[0]) {
        case Failure(_) =>
        case Success(first) =>
          match FromList(a[1..], parse) {
            case Failure(_) =>
            case Success(x) =>
              match FromList(b, parse) {
                case Failure(_) =>
                case Success(y) =>
                  assert [first] + (x.links + y.links) == ([first] + x.links) + y.links;
              }
          }
      }
    } else {
      assert a + b == b;
      if FromList(b, parse).Success? {
        assert FromList(a, parse).value.links + FromList(b, parse).value.links == FromList(b, parse).value.links;
      }
    }
  }

  // ---- the Header[] constructor ----

  /** The header name equals "link", ignoring case. */
  predicate IsLinkHeader(h: HttpHeader)
    ensures IsLinkHeader(h) ==> |h.name| == 4
    ensures h.name == "link" ==> IsLinkHeader(h)
  {
    EqualsIgnoreCase("link", h.name)
  }

  /**
   * Exactly the names `equalsIgnoreCase("link")` accepts: four characters, each l, i, n, k in
   * either case, where i may also be dotted or dotless I and k the Kelvin sign.
   */
  lemma IsLinkHeaderNames(h: HttpHeader)
    ensures IsLinkHeader(h)
            <==> |h.name| == 4 && h.name[0] in {'l', 'L'} && h.name[1] in {'i', 'I', '\U{0130}', '\U{0131}'}
                 && h.name[2] in {'n', 'N'} && h.name[3] in {'k', 'K', '\U{212A}'}
  {
    EqualsIgnoreCaseMeaning("link", h.name);
    assert CaseVariants('l') == {'l', 'L'};
    assert CaseVariants('i') == {'i', 'I', '\U{0130}', '\U{0131}'};
    assert CaseVariants('n') == {'n', 'N'};
    assert CaseVariants('k') == {'k', 'K', '\U{212A}'};
  }

  /** The values of the headers named "link" (in any case), in their original order. */
  function LinkHeaderValues(headers: seq<HttpHeader>): (values: seq<string>)
    ensures |values| <= |headers|
  {
    if |headers| == 0 then []
    else
      var last := headers[|headers| - 1];
      LinkHeaderValues(headers[..|headers| - 1]) + (if IsLinkHeader(last) then [last.value] else [])
  }

  /** What `new LinkHeaders(headers)` builds: the list constructor applied to the "link" headers' values. */
  function LinksOfHeaders(headers: seq<HttpHeader>, parse: LinkParser): Result<LinkHeaders, Exception>
  {
    FromList(LinkHeaderValues(headers), parse)
  }

  /**
   * `new LinkHeaders(Header[] headers)`: walks the headers, parsing and appending the
   * value of each one named "link" (ignoring case).
   */
  method FromHeaders(headers: seq<HttpHeader>, parse: LinkParser) returns (r: Result<LinkHeaders, Exception>)
    ensures r == LinksOfHeaders(headers, parse)
  {
    var links: seq<Link> := [];
    var i := 0;
    while i < |headers|
      invariant 0 <= i <= |headers|
      invariant FromList(LinkHeaderValues(headers[..i]), parse) == Success(LinkHeaders(links))
    {
      var h := headers[i];
      if IsLinkHeader(h) {
        var parsed := parse(h.value);
        if parsed.Failure? {
          FromHeadersRejects(headers, i, parse);
          return Failure(IllegalArgumentException(parsed.error));
        }
        FromHeadersAccepts(headers, i, parse, links);
        links := links + [parsed.value];
      } else {
        FromHeadersSkips(headers, i, parse);
      }
      i := i + 1;
    }
    assert headers[..i] == headers;
    return Success(LinkHeaders(links));
  }

  /** A "link" header whose value parses adds its link to those of the headers before it. */
  lemma FromHeadersAccepts(headers: seq<HttpHeader>, i: nat, parse: LinkParser, links: seq<Link>)
    requires i < |headers| && IsLinkHeader(headers[i]) && parse(headers[i].value).Success?
    requires FromList(LinkHeaderValues(headers[..i]), parse) == Success(LinkHeaders(links))
    ensures FromList(LinkHeaderValues(headers[..i + 1]), parse)
            == Success(LinkHeaders(links + [parse(headers[i].value).value]))
  {
    LinkHeaderValuesStep(headers, i);
    FromListAccepts(LinkHeaderValues(headers[..i]), headers[i].value, parse, links);
  }

  /** A header of another name leaves the links of the headers before it as they are. */
  lemma FromHeadersSkips(headers: seq<HttpHeader>, i: nat, parse: LinkParser)
    requires i < |headers| && !IsLinkHeader(headers[i])
    ensures LinkHeaderValues(headers[..i + 1]) == LinkHeaderValues(headers[..i])
  {
    LinkHeaderValuesStep(headers, i);
  }

  /** A "link" header whose value does not parse decides the outcome for all the headers. */
  lemma FromHeadersRejects(headers: seq<HttpHeader>, i: nat, parse: LinkParser)
    requires i < |headers| && IsLinkHeader(headers[i]) && parse(headers[i].value).Failure?
    requires FromList(LinkHeaderValues(headers[..i]), parse).Success?
    ensures LinksOfHeaders(headers, parse) == Failure(IllegalArgumentException(parse(headers[i].value).error))
  {
    LinkHeaderValuesStep(headers, i);
    FromListRejects(LinkHeaderValues(headers[..i]), headers[i].value, LinkHeaderValues(headers[i + 1..]), parse);
    LinkHeaderValuesAppend(headers[..i + 1], headers[i + 1..]);
    assert headers[..i + 1] + headers[i + 1..] == headers;
  }

  lemma LinkHeaderValuesStep(headers: seq<HttpHeader>, i: nat)
    requires i < |headers|
    ensures LinkHeaderValues(headers[..i + 1]) ==
            LinkHeaderValues(headers[..i]) + (if IsLinkHeader(headers[i]) then [headers[i].value] else [])
  {
    assert headers[..i + 1][..i] == headers[..i];
  }

  lemma FromListAccepts(prev: seq<string>, v: string, parse: LinkParser, links: seq<Link>)
    requires FromList(prev, parse) == Success(LinkHeaders(links))
    requires parse(v).Success?
    ensures FromList(prev + [v], parse) == Success(LinkHeaders(links + [parse(v).value]))
  {
    FromListAppend(prev, [v], parse);
    assert [v][0] == v && [v][1..] == [];
    assert FromList([], parse) == Success(LinkHeaders([]));
    assert FromList([v], parse) == Success(LinkHeaders([parse(v).value] + []));
    assert [parse(v).value] + [] == [parse(v).value];
  }

  lemma FromListRejects(prev: seq<string>, v: string, rest: seq<string>, parse: LinkParser)
    requires FromList(prev, parse).Success?
    requires parse(v).Failure?
    ensures FromList(prev + [v] + rest, parse) == Failure(IllegalArgumentException(parse(v).error))
  {
    FromListAppend(prev, [v] + rest, parse);
    assert prev + [v] + rest == prev + ([v] + rest);
    assert ([v] + rest)[0] == v;
  }

  lemma {:induction false} LinkHeaderValuesAppend(a: seq<HttpHeader>, b: seq<HttpHeader>)
    ensures LinkHeaderValues(a + b) == LinkHeaderValues(a) + LinkHeaderValues(b)
    decreases |b|
  {
    if |b| == 0 {
      assert a + b == a;
    } else {
      var b' := b[..|b| - 1];
      assert (a + b)[..|a + b| - 1] == a + b';
      LinkHeaderValuesAppend(a, b');
    }
  }

  /** A header whose name is not "link" contributes nothing, wherever it stands. */
  lemma LinkHeaderValuesSkipsOthers(a: seq<HttpHeader>, h: HttpHeader, b: seq<HttpHeader>)
    requires !IsLinkHeader(h)
    ensures LinkHeaderValues(a + [h] + b) == LinkHeaderValues(a + b)
  {
    LinkHeaderValuesAppend(a + [h], b);
    LinkHeaderValuesAppend(a, b);
    assert (a + [h])[..|a + [h]| - 1] == a;
  }

  /** When every header is named "link", every value is kept, in order. */
  lemma {:induction false} LinkHeaderValuesKeepsLinks(headers: seq<HttpHeader>)
    requires forall i | 0 <= i < |headers| :: IsLinkHeader(headers[i])
    ensures |LinkHeaderValues(headers)| == |headers|
    ensures forall i | 0 <= i < |headers| :: LinkHeaderValues(headers)[i] == headers[i].value
  {
    if |headers| > 0 {
      LinkHeaderValuesKeepsLinks(headers[..|headers| - 1]);
    }
  }

  /** A value is kept exactly when some header named "link" carries it. */
  lemma {:induction false} LinkHeaderValuesMembers(headers: seq<HttpHeader>, v: string)
    ensures v in LinkHeaderValues(headers) <==>
            exists i | 0 <= i < |headers| :: IsLinkHeader(headers[i]) && headers[i].value == v
  {
    if |headers| > 0 {
      var init := headers[..|headers| - 1];
      LinkHeaderValuesMembers(init, v);
      if v in LinkHeaderValues(init) {
        var i :| 0 <= i < |init| && IsLinkHeader(init[i]) && init[i].value == v;
        assert headers[i] == init[i];
      }
      if exists i | 0 <= i < |headers| :: IsLinkHeader(headers[i]) && headers[i].value == v {
        var i :| 0 <= i < |headers| && IsLinkHeader(headers[i]) && headers[i].value == v;
        if i < |init| {
          assert init[i] == headers[i];
        }
      }
    }
  }

  // ---- the queries ----

  /** The position of the first link whose relation equals rel, or -1. */
  function FirstWithRel(links: seq<Link>, rel: string): (k: int)
    ensures -1 <= k < |links|
    ensures k == -1 <==> forall i | 0 <= i < |links| :: links[i].rel != rel
    ensures 0 <= k ==> links[k].rel == rel && forall i | 0 <= i < k :: links[i].rel != rel
  {
    if |links| == 0 then -1
    else if links[0].rel == rel then 0
    else
      var k := FirstWithRel(links[1..], rel);
      if k == -1 then -1 else k + 1
  }

  /**
   * `getUriByRel(rel)`: the URI of the first link (in list order) whose relation equals
   * rel exactly, or null when no link has that relation.
   */
  function GetUriByRel(lh: LinkHeaders, rel: string): (r: Option<string>)
    ensures r.None? <==> forall i | 0 <= i < |lh.links| :: lh.links[i].rel != rel
    ensures r.Some? ==> exists k | 0 <= k < |lh.links| ::
              lh.links[k] == Link(rel, r.value) && forall i | 0 <= i < k :: lh.links[i].rel != rel
  {
    var k := FirstWithRel(lh.links, rel);
    if k == -1 then None
    else
      assert lh.links[k] == Link(rel, lh.links[k].uri);
      Some(lh.links[k].uri)
  }

  /** Whether some link in links has relation rel and a URI containing uri. */
  function AnyMatch(links: seq<Link>, rel: string, uri: string): (b: bool)
    ensures b <==> exists i | 0 <= i < |links| :: links[i].rel == rel && Contains(links[i].uri, uri)
  {
    if |links| == 0 then false
    else if links[0].rel == rel && Contains(links[0].uri, uri) then true
    else
      var b := AnyMatch(links[1..], rel, uri);
      assert b ==> exists i | 0 <= i < |links| :: links[i].rel == rel && Contains(links[i].uri, uri) by {
        if b {
          var i :| 0 <= i < |links| - 1 && links[1..][i].rel == rel && Contains(links[1..][i].uri, uri);
          assert links[i + 1] == links[1..][i];
        }
      }
      assert (exists i | 0 <= i < |links| :: links[i].rel == rel && Contains(links[i].uri, uri)) ==> b by {
        if exists i | 0 <= i < |links| :: links[i].rel == rel && Contains(links[i].uri, uri) {
          var i :| 0 <= i < |links| && links[i].rel == rel && Contains(links[i].uri, uri);
          assert i > 0;
          assert links[1..][i - 1] == links[i];
        }
      }
      b
  }

  /**
   * `contains(rel, uri)`: some link has relation rel (exactly) and a URI in which uri
   * occurs as a substring.
   */
  function ContainsLink(lh: LinkHeaders, rel: string, uri: string): (b: bool)
    ensures b <==> exists i | 0 <= i < |lh.links| :: lh.links[i].rel == rel && Contains(lh.links[i].uri, uri)
  {
    AnyMatch(lh.links, rel, uri)
  }

  /** A link that `contains` finds is one `getUriByRel` finds a URI for. */
  lemma ContainsImpliesUriByRel(lh: LinkHeaders, rel: string, uri: string)
    requires ContainsLink(lh, rel, uri)
    ensures GetUriByRel(lh, rel).Some?
  {
  }

  // ---- the headers of LinkHeadersTest ----

  /** A parser that reads `<uri>; rel="r"` exactly as the test writes it. */
  function TestParser(value: string): Result<Link, string>
  {
    if value == "<http://example.com/foo>; rel=\"describedby\"" then Success(Link("describedby", "http://example.com/foo"))
    else if value == "<http://example.com/modelA>; rel=\"type\"" then Success(Link("type", "http://example.com/modelA"))
    else Failure(value)
  }

  /** The header name test ignores case, and only case. */
  lemma LinkHeaderNamesExample(value: string)
    ensures IsLinkHeader(HttpHeader("Link", value)) && IsLinkHeader(HttpHeader("LINK", value))
    ensures IsLinkHeader(HttpHeader("link", value))
    ensures !IsLinkHeader(HttpHeader("Links", value)) && !IsLinkHeader(HttpHeader("Content-Type", value))
  {
  }

  /** The Header[] constructor drops Content-Type and keeps the two Link headers, in order. */
  lemma HeadersArrayExample()
    ensures LinkHeaderValues([HttpHeader("Link", "<http://example.com/foo>; rel=\"describedby\""),
                              HttpHeader("Link", "<http://example.com/modelA>; rel=\"type\""),
                              HttpHeader("Content-Type", "text/plain")])
            == ["<http://example.com/foo>; rel=\"describedby\"", "<http://example.com/modelA>; rel=\"type\""]
  {
    var hs := [HttpHeader("Link", "<http://example.com/foo>; rel=\"describedby\""),
               HttpHeader("Link", "<http://example.com/modelA>; rel=\"type\""),
               HttpHeader("Content-Type", "text/plain")];
    assert !IsLinkHeader(hs[2]);
    assert IsLinkHeader(hs[0]) && IsLinkHeader(hs[1]);
    assert [hs[0]][..0] == [];
    assert LinkHeaderValues([hs[0]]) == [hs[0].value];
    assert [hs[0], hs[1]][..1] == [hs[0]];
    assert LinkHeaderValues([hs[0], hs[1]]) == [hs[0].value, hs[1].value];
    assert hs[..2] == [hs[0], hs[1]];
  }

  /** The queries of LinkHeadersTest on the links both constructors build. */
  lemma QueriesExample()
    ensures var lh := LinkHeaders([Link("describedby", "http://example.com/foo"), Link("type", "http://example.com/modelA")]);
            && GetUriByRel(lh, "describedby") == Some("http://example.com/foo")
            && GetUriByRel(lh, "notalinkrelation") == None
            && ContainsLink(lh, "type", "http://example.com/modelA")
            && !ContainsLink(lh, "type", "http://example.com/missingModel")
  {
    var lh := LinkHeaders([Link("describedby", "http://example.com/foo"), Link("type", "http://example.com/modelA")]);
    assert StartsWith(lh.links[1].uri[0..], "http://example.com/modelA");
    forall i | 0 <= i <= |lh.links[1].uri| ensures !StartsWith(lh.links[1].uri[i..], "http://example.com/missingModel") {
    }
  }
}
