// basic-http/src/status.rs: the response status codes with their reason
// phrases, and the parsed request start line.
module BasicHttpStatus {
  import Wrappers
  import opened EthTypes

  datatype HttpStatusCode =
    | Ok | Created | Accepted | NoContent
    | BadRequest | Unauthorized | PaymentRequired | Forbidden | NotFound
    | ServerError | NotImplemented | BadGateway

  /** The enum's discriminant, what `code as usize` gives. */
  function Code(c: HttpStatusCode): (n: nat)
    ensures 200 <= n < 600
    ensures FromCode(n) == Wrappers.Some(c)
  {
    match c
    case Ok => 200
    case Created => 201
    case Accepted => 202
    case NoContent => 204
    case BadRequest => 400
    case Unauthorized => 401
    case PaymentRequired => 402
    case Forbidden => 403
    case NotFound => 404
    case ServerError => 500
    case NotImplemented => 501
    case BadGateway => 502
  }

  /** `code_as_str_name`: the reason phrase. */
  function CodeAsStrName(c: HttpStatusCode): (r: string)
    ensures r != []
    ensures forall k :: 0 <= k < |r| ==> r[k] == ' ' || 'A' <= r[k] <= 'Z' || 'a' <= r[k] <= 'z'
  {
    match c
    case Ok => "Ok"
    case Created => "Created"
    case Accepted => "Accepted"
    case NoContent => "No Content"
    case BadRequest => "Bad Request"
    case Unauthorized => "Unauthorized"
    case PaymentRequired => "Payment Required"
    case Forbidden => "Forbidden"
    case NotFound => "Not Found"
    case ServerError => "Internal Server Error"
    case NotImplemented => "Not Implemented"
    case BadGateway => "Bad Gateway"
  }

  /** The status a number on a status line names, if it is one of the twelve. */
  function FromCode(n: nat): Wrappers.Option<HttpStatusCode>
  {
    if n == 200 then Wrappers.Some(Ok)
    else if n == 201 then Wrappers.Some(Created)
    else if n == 202 then Wrappers.Some(Accepted)
    else if n == 204 then Wrappers.Some(NoContent)
    else if n == 400 then Wrappers.Some(BadRequest)
    else if n == 401 then Wrappers.Some(Unauthorized)
    else if n == 402 then Wrappers.Some(PaymentRequired)
    else if n == 403 then Wrappers.Some(Forbidden)
    else if n == 404 then Wrappers.Some(NotFound)
    else if n == 500 then Wrappers.Some(ServerError)
    else if n == 501 then Wrappers.Some(NotImplemented)
    else if n == 502 then Wrappers.Some(BadGateway)
    else Wrappers.None
  }

  /** The discriminants are distinct, so the number on a status line identifies the status. */
  lemma CodeRoundTrip(c: HttpStatusCode, n: nat)
    ensures FromCode(Code(c)) == Wrappers.Some(c)
    ensures FromCode(n).Some? ==> Code(FromCode(n).value) == n
  {
  }

  /**
   * Every code sits in the class its name belongs to: the four successes in
   * 2xx, the request errors in 4xx and the server errors in 5xx.
   */
  lemma CodeClasses(c: HttpStatusCode)
    ensures Code(c) / 100 == 2 <==> c in {Ok, Created, Accepted, NoContent}
    ensures Code(c) / 100 == 4 <==> c in {BadRequest, Unauthorized, PaymentRequired, Forbidden, NotFound}
    ensures Code(c) / 100 == 5 <==> c in {ServerError, NotImplemented, BadGateway}
  {
  }

  /** No two statuses share a reason phrase. */
  lemma NamesDistinct(a: HttpStatusCode, b: HttpStatusCode)
    requires CodeAsStrName(a) == CodeAsStrName(b)
    ensures a == b
  {
  }

  /** `HttpStatus`: the start line of a request, with the code it was parsed with (`method` is a keyword here). */
  datatype HttpStatus = HttpStatus(code: u64, requestMethod: string, path: string, version: string)

  /** `Clone for HttpStatus`: a field-by-field copy. */
  function Clone(s: HttpStatus): (c: HttpStatus)
    ensures c == s
  {
    HttpStatus(s.code, s.requestMethod, s.path, s.version)
  }
}
