// basic-http/src/server.rs: a server that routes each parsed request to the
// handler registered for its path. Handlers are plain `fn` values and
// options are boxed values of any type; both are type parameters here.
module BasicHttpServer {
  import opened Wrappers
  import opened EthTypes
  import opened BasicHttpHeader
  import opened BasicHttpRequest

  type u16 = x: int | 0 <= x < 0x1_0000

  /** `SocketAddrV4`: the four octets of an IPv4 address and a port. */
  datatype SocketAddress = SocketAddress(octets: seq<u8>, port: u16)

  /**
   * What `handle_connection` does with one read: the parser refused the
   * request and the stream is shut down, an `unwrap` in the parser panicked
   * and the thread is aborted, no handler is registered for the path, or the
   * path's handler is called with the request (and a fresh response on the
   * stream).
   */
  datatype Outcome<H> = ShutDown | Aborted | Unrouted(request: HttpRequest) | Called(handler: H, request: HttpRequest)

  /** The routing `handle_connection` performs once the request is parsed. */
  function Dispatch<H>(handlers: map<string, H>, parsed: Parsed<HttpRequest>): (r: Outcome<H>)
    ensures r.ShutDown? <==> parsed.Rejected?
    ensures r.Aborted? <==> parsed.Panicked?
    ensures r.Called? <==> parsed.Parsed? && parsed.value.status.path in handlers
    ensures r.Called? ==> r.handler == handlers[parsed.value.status.path] && r.request == parsed.value
    ensures r.Unrouted? ==> r.request == parsed.value
  {
    match parsed
    case Rejected => ShutDown
    case Panicked => Aborted
    case Parsed(request) =>
      if request.status.path in handlers then Called(handlers[request.status.path], request)
      else Unrouted(request)
  }

  class HttpServer<H, V> {
    var address: SocketAddress
    var handlers: map<string, H>
    var options: map<string, V>

    /**
     * `new`, with the address already parsed: no handlers, and the given
     * options inserted one by one in iteration order.
     */
    constructor (octets: seq<u8>, port: u16, given: Option<map<string, V>>)
      requires |octets| == 4
      ensures address == SocketAddress(octets, port)
      ensures handlers == map[]
      ensures given.None? ==> options == map[]
      ensures given.Some? ==> options == given.value
    {
      address := SocketAddress(octets, port);
      handlers := map[];
      var copy: map<string, V> := map[];
      if given.Some? {
        var source := given.value;
        var remaining := source.Keys;
        while remaining != {}
          invariant remaining <= source.Keys
          invariant forall k :: k in copy <==> k in source && k !in remaining
          invariant forall k :: k in copy ==> copy[k] == source[k]
          decreases |remaining|
        {
          var k :| k in remaining;
          copy := copy[k := source[k]];
          remaining := remaining - {k};
        }
      }
      options := copy;
    }

    /** `append_handler`: refuses a path that already has a handler, otherwise registers it. */
    method AppendHandler(path: string, handler: H) returns (r: Result<(), ()>)
      modifies this
      ensures path in old(handlers) ==> r == Err(()) && handlers == old(handlers)
      ensures path !in old(handlers) ==> r == Ok(()) && handlers == old(handlers)[path := handler]
      ensures address == old(address) && options == old(options)
    {
      if path in handlers {
        return Err(());
      }
      handlers := handlers[path := handler];
      return Ok(());
    }

    /** `handle_connection`, for the bytes one read of the stream delivered. */
    method HandleConnection(raw: RawRequest, matches: string -> bool) returns (outcome: Outcome<H>)
      ensures outcome == ShutDown <==> FromRawRequest(raw, matches).Rejected?
      ensures outcome == Aborted <==> FromRawRequest(raw, matches).Panicked?
      ensures outcome.Called? <==>
        FromRawRequest(raw, matches).Parsed? && FromRawRequest(raw, matches).value.status.path in handlers
      ensures outcome.Called? ==>
        outcome.request == FromRawRequest(raw, matches).value && outcome.handler == handlers[outcome.request.status.path]
      ensures outcome.Unrouted? ==>
        outcome.request == FromRawRequest(raw, matches).value && outcome.request.status.path !in handlers
      ensures outcome == Dispatch(handlers, FromRawRequest(raw, matches))
    {
      var result := FromRawRequest(raw, matches);
      if result.Rejected? {
        return ShutDown;
      }
      if result.Panicked? {
        return Aborted;
      }
      var request := result.value;
      if request.status.path in handlers {
        outcome := Called(handlers[request.status.path], request);
      } else {
        outcome := Unrouted(request);
      }
    }
  }

  /** Registering a handler for a fresh path changes the routing of no other path. */
  lemma AppendKeepsOtherRoutes<H>(handlers: map<string, H>, path: string, handler: H, parsed: Parsed<HttpRequest>)
    requires path !in handlers
    requires parsed.Parsed? ==> parsed.value.status.path != path
    ensures Dispatch(handlers[path := handler], parsed) == Dispatch(handlers, parsed)
  {
  }

  /**
   * A well-formed request, rendered with its header in any order, reaches
   * the handler registered for its path unchanged; with no handler for the
   * path it is dropped.
   */
  lemma RenderedRequestReachesHandler<H>(handlers: map<string, H>, r: HttpRequest, order: seq<string>, matches: string -> bool)
    requires EnumeratesKeys(order, r.header)
    requires WellFormed(r)
    requires matches(StartLine(r.status))
    ensures r.status.path in handlers ==>
      Dispatch(handlers, FromText(RequestToString(r, order), matches)) == Called(handlers[r.status.path], r)
    ensures r.status.path !in handlers ==>
      Dispatch(handlers, FromText(RequestToString(r, order), matches)) == Unrouted(r)
  {
    RequestRoundTrip(r, order, matches);
  }
}
