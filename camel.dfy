/**
 * The parts of a Camel exchange the processors read and write: the in-message's
 * headers and body, and the exchange's properties.
 */
module Camel {
  import opened Java

  /** A header value: a string, or a list of strings (as the `Link` header arrives). */
  datatype HeaderValue = Text(text: string) | TextList(items: seq<string>)

  /** `exchange.getIn()`: a message whose headers and body processors update in place. */
  class Message {
    var headers: map<string, HeaderValue>
    var body: string

    constructor (headers: map<string, HeaderValue>, body: string)
      ensures this.headers == headers && this.body == body
    {
      this.headers := headers;
      this.body := body;
    }
  }

  /** An exchange: its in-message and its properties. */
  class Exchange {
    const message: Message
    var properties: map<string, string>

    constructor (message: Message)
      ensures this.message == message && properties == map[]
    {
      this.message := message;
      properties := map[];
    }
  }

  /** `Exchange.CHARSET_NAME` */
  const CharsetNameProperty := "CamelCharsetName"

  /** `in.getHeader(name, String.class)`; a value that is not a string reads as null here. */
  function StringHeader(headers: map<string, HeaderValue>, name: string): Option<string>
  {
    if name in headers && headers[name].Text? then Some(headers[name].text) else None
  }

  /** `in.getHeader(name, List.class)`; a value that is not a list reads as null here. */
  function ListHeader(headers: map<string, HeaderValue>, name: string): Option<seq<string>>
  {
    if name in headers && headers[name].TextList? then Some(headers[name].items) else None
  }
}
