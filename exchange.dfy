/**
 * The Camel exchange that travels down the route: its message headers, its exchange
 * variables and its message body, and the DSL steps the route applies to them.
 */
module Exchanges {
  import opened Domain

  /** Header names the route sets or that the SQL component sets. */
  const StatusHeader := "status"
  const MessageHeader := "message"
  const HttpResponseCode := "CamelHttpResponseCode"  // Exchange.HTTP_RESPONSE_CODE
  const ContentType := "Content-Type"
  const SqlUpdateCount := "CamelSqlUpdateCount"
  const JsonMediaType := "application/json"

  /** The exchange variable the doTry block sets. */
  const HttpStatusCodeVariable := "httpStatusCode"

  /** A header or variable value: a string or an integer. */
  datatype Value = Text(s: string) | Number(n: int)

  /**
   * The message body: the raw request, the unmarshalled record, or the output of the
   * response template for a status and a message.
   */
  datatype Body = Raw(text: string) | Record(transaction: Transaction) | Rendered(status: string, message: string)

  /** The headers of every response: the HTTP code and the JSON content type, and nothing else. */
  function ResponseHeaders(httpCode: int): map<string, Value> {
    map[HttpResponseCode := Number(httpCode), ContentType := Text(JsonMediaType)]
  }

  class Exchange {
    var headers: map<string, Value>
    var variables: map<string, Value>
    var body: Body

    /** The exchange the REST consumer creates for a request: its transport headers and raw body. */
    constructor (requestHeaders: map<string, Value>, payload: string)
      ensures headers == requestHeaders && variables == map[] && body == Raw(payload)
    {
      headers := requestHeaders;
      variables := map[];
      body := Raw(payload);
    }

    /** `setHeader(name, value)` */
    method SetHeader(name: string, v: Value)
      modifies this
      ensures headers == old(headers)[name := v]
      ensures variables == old(variables) && body == old(body)
    {
      headers := headers[name := v];
    }

    /** `setVariable(name, value)` */
    method SetVariable(name: string, v: Value)
      modifies this
      ensures variables == old(variables)[name := v]
      ensures headers == old(headers) && body == old(body)
    {
      variables := variables[name := v];
    }

    /** The body a processor puts in place of the current one. */
    method SetBody(b: Body)
      modifies this
      ensures body == b
      ensures headers == old(headers) && variables == old(variables)
    {
      body := b;
    }

    /** `removeHeaders("*")`: the pattern matches every header name. */
    method RemoveAllHeaders()
      modifies this
      ensures headers == map[]
      ensures variables == old(variables) && body == old(body)
    {
      headers := map[];
    }

    /**
     * `to(freemarkerResponseTemplate)`: the one response template, which may not be replaced
     * from a header, renders the status and message headers into the body.
     */
    method RenderResponseTemplate()
      requires StatusHeader in headers && headers[StatusHeader].Text?
      requires MessageHeader in headers && headers[MessageHeader].Text?
      modifies this
      ensures body == Rendered(old(headers)[StatusHeader].s, old(headers)[MessageHeader].s)
      ensures headers == old(headers) && variables == old(variables)
    {
      body := Rendered(headers[StatusHeader].s, headers[MessageHeader].s);
    }
  }
}
