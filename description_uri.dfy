/**
 * DescriptionURI: copies the target of the first `describedby` link of the message's
 * Link header list into the message's `DescribedBy` header.
 */
module DescriptionUri {
  import opened Java
  import opened Camel
  import opened LinkHeaderUtils

  const DescribedByHeaderName := "DescribedBy"
  const LinkHeaderName := "Link"

  /**
   * The headers process leaves: a missing Link list is dereferenced (NullPointerException),
   * a Link value the parser rejects ends construction of the LinkHeaders, and otherwise
   * DescribedBy is set when there is a describedby link. No other header changes.
   */
  function DescribedByEffect(headers: map<string, HeaderValue>, parseLink: LinkParser)
    : (r: Result<map<string, HeaderValue>, Exception>)
    ensures ListHeader(headers, LinkHeaderName).None? <==> r == Failure(NullPointerException)
    ensures r.Success? ==> r.value - {DescribedByHeaderName} == headers - {DescribedByHeaderName}
    ensures r.Success? && r.value != headers ==> DescribedByHeaderName in r.value && r.value[DescribedByHeaderName].Text?
  {
    var incomingLinkHeaders := ListHeader(headers, LinkHeaderName);
    if incomingLinkHeaders.None? then Failure(NullPointerException)
    else
      match FromList(incomingLinkHeaders.value, parseLink)
      case Failure(e) =>
        FromListMeaning(incomingLinkHeaders.value, parseLink);
        Failure(e)
      case Success(linkHeaders) =>
        var describedByUri := GetUriByRel(linkHeaders, "describedby");
        if describedByUri.Some? then Success(headers[DescribedByHeaderName := Text(describedByUri.value)])
        else Success(headers)
  }

  /** process(exchange): the message's headers become those DescribedByEffect gives; its body is untouched. */
  method Process(exchange: Exchange, parseLink: LinkParser) returns (completion: Completion)
    modifies exchange.message
    ensures var r := DescribedByEffect(old(exchange.message.headers), parseLink);
            (r.Success? ==> completion == Normal && exchange.message.headers == r.value)
            && (r.Failure? ==> completion == Thrown(r.error) && exchange.message.headers == old(exchange.message.headers))
    ensures exchange.message.body == old(exchange.message.body)
  {
    var message := exchange.message;
    var incomingLinkHeaders := ListHeader(message.headers, LinkHeaderName);
    if incomingLinkHeaders.None? {
      return Thrown(NullPointerException);
    }
    var linkHeaders := FromList(incomingLinkHeaders.value, parseLink);
    if linkHeaders.Failure? {
      return Thrown(linkHeaders.error);
    }
    var describedByUri := GetUriByRel(linkHeaders.value, "describedby");
    if describedByUri.Some? {
      message.headers := message.headers[DescribedByHeaderName := Text(describedByUri.value)];
    }
    return Normal;
  }

  /** With a describedby link among the parsed links, DescribedBy becomes the URI of the first one. */
  lemma DescribedBySetToFirst(headers: map<string, HeaderValue>, parseLink: LinkParser, linkHeaders: LinkHeaders)
    requires ListHeader(headers, LinkHeaderName).Some?
    requires FromList(ListHeader(headers, LinkHeaderName).value, parseLink) == Success(linkHeaders)
    requires exists i | 0 <= i < |linkHeaders.links| :: linkHeaders.links[i].rel == "describedby"
    ensures var k := FirstWithRel(linkHeaders.links, "describedby");
            0 <= k
            && DescribedByEffect(headers, parseLink)
               == Success(headers[DescribedByHeaderName := Text(linkHeaders.links[k].uri)])
  {
  }

  /** Without a describedby link, no header is written: the headers are exactly as they were. */
  lemma NoDescribedByUnchanged(headers: map<string, HeaderValue>, parseLink: LinkParser, linkHeaders: LinkHeaders)
    requires ListHeader(headers, LinkHeaderName).Some?
    requires FromList(ListHeader(headers, LinkHeaderName).value, parseLink) == Success(linkHeaders)
    requires forall i | 0 <= i < |linkHeaders.links| :: linkHeaders.links[i].rel != "describedby"
    ensures DescribedByEffect(headers, parseLink) == Success(headers)
  {
  }

  /** A Link value the parser rejects ends process with the parser's IllegalArgumentException. */
  lemma UnparsableLinkFails(headers: map<string, HeaderValue>, parseLink: LinkParser, i: nat)
    requires ListHeader(headers, LinkHeaderName).Some?
    requires i < |ListHeader(headers, LinkHeaderName).value|
    requires parseLink(ListHeader(headers, LinkHeaderName).value[i]).Failure?
    ensures DescribedByEffect(headers, parseLink).Failure?
    ensures DescribedByEffect(headers, parseLink).error.IllegalArgumentException?
  {
    FromListMeaning(ListHeader(headers, LinkHeaderName).value, parseLink);
  }

  /** Running process on its own output adds nothing more: the DescribedBy header is already set. */
  lemma DescribedByIdempotent(headers: map<string, HeaderValue>, parseLink: LinkParser)
    requires DescribedByEffect(headers, parseLink).Success?
    ensures DescribedByEffect(DescribedByEffect(headers, parseLink).value, parseLink)
            == DescribedByEffect(headers, parseLink)
  {
    var after := DescribedByEffect(headers, parseLink).value;
    var values := ListHeader(headers, LinkHeaderName).value;
    var linkHeaders := FromList(values, parseLink).value;
    var describedByUri := GetUriByRel(linkHeaders, "describedby");
    assert ListHeader(after, LinkHeaderName) == Some(values);
    if describedByUri.Some? {
      assert after == headers[DescribedByHeaderName := Text(describedByUri.value)];
      assert after[DescribedByHeaderName := Text(describedByUri.value)] == after;
    }
  }

  /** The Link values of LinkHeadersTest: a describedby link and a type link. */
  lemma TestLinksExample()
    ensures var headers := map[LinkHeaderName := TextList(["<http://example.com/foo>; rel=\"describedby\"",
                                                           "<http://example.com/modelA>; rel=\"type\""])];
            DescribedByEffect(headers, TestParser)
            == Success(headers[DescribedByHeaderName := Text("http://example.com/foo")])
  {
    var values := ["<http://example.com/foo>; rel=\"describedby\"", "<http://example.com/modelA>; rel=\"type\""];
    var links := [Link("describedby", "http://example.com/foo"), Link("type", "http://example.com/modelA")];
    assert TestParser(values[0]) == Success(links[0]);
    assert TestParser(values[1]) == Success(links[1]);
    assert FromList(values, TestParser).value.links == links;
    assert FromList(values, TestParser) == Success(LinkHeaders(links));
  }
}
