/**
 * What the model keeps of java.net.URL: its components. Parsing itself
 * (`new URL(String)`) belongs to the library and is a parameter of the operations
 * that need it.
 */
module Urls {
  import opened Java
  import opened JavaStrings

  /** `URL.getPort()`: the explicit port, or -1 when the URL names none. */
  type Port = p: int | -1 <= p

  /**
   * A parsed URL: `external` is its `toString()`, the other fields are what
   * `getProtocol()`, `getHost()`, `getPort()`, `getPath()` and `getQuery()` return
   * (`query` is None where `getQuery()` is null).
   */
  datatype Url = Url(external: string, protocol: string, host: string, port: Port,
                     path: string, query: Option<string>)

  /** `new URL(s)`: the parsed URL, or the MalformedURLException's message. */
  type UrlParser = string -> Result<Url, string>

  /**
   * `new URIBuilder(s)` (the CAS client's copy of Apache's builder): the components of s
   * read with java.net.URI syntax, which admits schemes java.net.URL rejects, or the
   * URISyntaxException's message.
   */
  type UriParser = string -> Result<Url, string>

  /** host, followed by ":" and the port when there is one. */
  function HostPort(host: string, port: Port): (hp: string)
    ensures port == -1 ==> hp == host
    ensures port != -1 ==> SplitHostPort(hp) == (host, port)
  {
    if port == -1 then host
    else
      HostPortRoundTrip(host, port);
      host + ":" + NatToString(port)
  }

  /**
   * Reads a host[:port] value back: when the text after the last ':' is a non-empty
   * run of digits it is the port, otherwise there is no port (an IPv6 literal such as
   * "[::1]" keeps its colons).
   */
  function SplitHostPort(hp: string): (string, Port)
  {
    var j := LastIndexOf(hp, ':');
    var noPort: Port := -1;
    if j == -1 || j + 1 == |hp| || !AllDigits(hp[j + 1..]) then (hp, noPort)
    else (hp[..j], DigitsValue(hp[j + 1..]))
  }

  lemma HostPortRoundTrip(host: string, port: nat)
    ensures SplitHostPort(host + ":" + NatToString(port)) == (host, port)
  {
    var digits := NatToString(port);
    var hp := host + ":" + digits;
    assert hp[|host|] == ':';
    assert hp[|host| + 1..] == digits;
    forall i | 0 <= i < |digits| ensures digits[i] != ':' {
      assert IsDigit(digits[i]);
    }
    assert ':' !in digits;
    assert LastIndexOf(hp, ':') == |host|;
    assert hp[..|host|] == host;
    NatToStringRoundTrip(port);
  }

  /** "?query" when there is a query, nothing otherwise. */
  function QuerySuffix(query: Option<string>): string
  {
    if query.Some? then "?" + query.value else ""
  }
}
