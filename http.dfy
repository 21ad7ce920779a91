/**
 * The part of a servlet response the filters touch: its headers, its status code and the text
 * written to its body.
 */
module Http {

  const StatusOk := 200
  const StatusTooManyRequests := 429

  class Response {
    var headers: map<string, string>
    var status: int
    var body: string

    /** A new response: no headers, status 200 until something sets another, an empty body. */
    constructor ()
      ensures headers == map[] && status == StatusOk && body == ""
    {
      headers := map[];
      status := StatusOk;
      body := "";
    }

    /** `setHeader`: replaces any earlier value of that header. */
    method SetHeader(name: string, value: string)
      modifies this
      ensures headers == old(headers)[name := value]
      ensures status == old(status) && body == old(body)
    {
      headers := headers[name := value];
    }

    /** `setStatus`. */
    method SetStatus(code: int)
      modifies this
      ensures status == code
      ensures headers == old(headers) && body == old(body)
    {
      status := code;
    }

    /** `getWriter().write(text)`: appends to the body. */
    method Write(text: string)
      modifies this
      ensures body == old(body) + text
      ensures headers == old(headers) && status == old(status)
    {
      body := body + text;
    }
  }
}
