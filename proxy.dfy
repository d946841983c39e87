/** The forwarding engine, `handle_proxy` (src/proxy/handler.rs).

    The HTTP client's `send` is foreign code: it is a parameter, a function from
    the outbound request to its outcome. An `Exchange` records what the handler
    returned and which outbound request, if any, it handed to `send`. */
module Proxy {
  import opened Results
  import opened Http
  import opened Errors
  import MapFold

  /** `ProxyState` without its `reqwest::Client`, whose only role is `send`. */
  datatype ProxyState = ProxyState(upstreams: map<string, string>)

  /** The outcome of collecting the inbound body (`axum::body::to_bytes`). */
  datatype InboundBody = Readable(bytes: Bytes) | Unreadable(reason: string)

  /** An inbound request: its URI's path-and-query (absent for a URI without
      one), its headers in iteration order, and its body. */
  datatype Request = Request(verb: Verb, pathAndQuery: Option<string>, headers: seq<Header>, body: InboundBody)

  /** What the built `reqwest::RequestBuilder` holds when it is sent. */
  datatype OutboundRequest = OutboundRequest(verb: Verb, url: string, headers: seq<Header>, body: Bytes)

  datatype UpstreamResponse = UpstreamResponse(status: StatusCode, headers: seq<Header>, body: Bytes)

  /** The outcome of `send`: a response, or a `reqwest::Error` (a refused
      connection, a reset, a URL that does not parse, ...). */
  datatype SendOutcome = Delivered(response: UpstreamResponse) | NetFail(reason: string)

  datatype Exchange = Exchange(sent: Option<OutboundRequest>, result: Result<Response, LuminaError>)

  function NoUpstreamMessage(route: string): string
  {
    "No upstream configured for route '" + route + "'"
  }

  function PathAndQuery(req: Request): string
  {
    match req.pathAndQuery
    case Some(pq) => pq
    case None => ""
  }

  /** The request headers that are forwarded: all but `host`, in order. */
  function WithoutHost(headers: seq<Header>): (r: seq<Header>)
    ensures forall i :: 0 <= i < |r| ==> r[i].name != "host"
    ensures forall h :: h in r <==> h in headers && h.name != "host"
    ensures |r| <= |headers|
    decreases |headers|
  {
    if headers == [] then []
    else
      var n := |headers| - 1;
      assert headers == headers[..n] + [headers[n]];
      WithoutHost(headers[..n]) + (if headers[n].name == "host" then [] else [headers[n]])
  }

  function Entries(headers: seq<Header>): (es: seq<(string, string)>)
    ensures |es| == |headers|
    ensures forall i :: 0 <= i < |headers| ==> es[i] == (headers[i].name, headers[i].value)
  {
    seq(|headers|, i requires 0 <= i < |headers| => (headers[i].name, headers[i].value))
  }

  /** The names in a header list. */
  function Names(headers: seq<Header>): set<string>
  {
    MapFold.KeysOf(Entries(headers))
  }

  /** Header `i` is the last one in the list with its name. */
  predicate IsLastNamed(headers: seq<Header>, i: int)
  {
    MapFold.IsLast(Entries(headers), i)
  }

  /** The response header map after inserting every upstream header in turn:
      it has exactly the upstream names, each with the last value it had. */
  function CopiedHeaders(headers: seq<Header>): (m: HeaderMap)
    ensures m.Keys == Names(headers)
    ensures forall i :: IsLastNamed(headers, i) ==> m[headers[i].name] == headers[i].value
    ensures forall h :: h in headers ==> h.name in m
  {
    var es := Entries(headers);
    assert forall h :: h in headers ==> h.name in MapFold.KeysOf(es) by {
      forall h | h in headers ensures h.name in MapFold.KeysOf(es) {
        var i :| 0 <= i < |headers| && headers[i] == h;
        assert es[i].0 == h.name;
      }
    }
    MapFold.InsertAllKeys(map[], es);
    assert forall i | IsLastNamed(headers, i) :: MapFold.InsertAll(map[], es)[es[i].0] == es[i].1 by {
      forall i | IsLastNamed(headers, i) ensures MapFold.InsertAll(map[], es)[es[i].0] == es[i].1 {
        MapFold.InsertAllLastWins(map[], es, i);
      }
    }
    MapFold.InsertAll(map[], es)
  }

  /** The specification of `handle_proxy`: look the route up, build the URL by
      appending the whole path-and-query to the upstream base, forward the
      method, the non-`host` headers and the body, then relay the upstream's
      status, headers and body. */
  function Forward(state: ProxyState, route: string, req: Request, send: OutboundRequest -> SendOutcome): (x: Exchange)
    ensures route !in state.upstreams ==>
      x == Exchange(None, Err(InvalidRoute(NoUpstreamMessage(route))))
    ensures x.sent.Some? <==> route in state.upstreams && req.body.Readable?
    ensures route in state.upstreams && req.body.Unreadable? ==>
      x == Exchange(None, Err(Internal("Failed to read body: " + req.body.reason)))
    ensures x.sent.Some? ==>
      && x.sent.value.url == state.upstreams[route] + PathAndQuery(req)
      && x.sent.value.verb == req.verb
      && x.sent.value.body == req.body.bytes
      && x.sent.value.headers == WithoutHost(req.headers)
    ensures x.sent.Some? && send(x.sent.value).NetFail? ==>
      x.result == Err(UpstreamError(send(x.sent.value).reason))
    ensures x.result.Ok? <==> x.sent.Some? && send(x.sent.value).Delivered?
    ensures x.result.Ok? ==>
      var upstream := send(x.sent.value).response;
      && x.result.value.status == upstream.status
      && x.result.value.headers.Keys == Names(upstream.headers)
      && (forall i :: IsLastNamed(upstream.headers, i) ==>
            x.result.value.headers[upstream.headers[i].name] == upstream.headers[i].value)
      && x.result.value.body == Streamed(upstream.body)
  {
    if route !in state.upstreams then
      Exchange(None, Err(InvalidRoute(NoUpstreamMessage(route))))
    else
      var url := state.upstreams[route] + PathAndQuery(req);
      var headers := WithoutHost(req.headers);
      match req.body
      case Unreadable(reason) => Exchange(None, Err(Internal("Failed to read body: " + reason)))
      case Readable(bytes) =>
        var outbound := OutboundRequest(req.verb, url, headers, bytes);
        match send(outbound)
        case NetFail(reason) => Exchange(Some(outbound), Err(UpstreamError(reason)))
        case Delivered(res) =>
          Exchange(Some(outbound), Ok(Response(res.status, CopiedHeaders(res.headers), Streamed(res.body))))
  }

  /** The loop of handler.rs:41-45: each non-`host` header is appended to the
      request builder, in order. */
  method ForwardHeaders(inbound: seq<Header>) returns (headers: seq<Header>)
    ensures headers == WithoutHost(inbound)
  {
    headers := [];
    var i := 0;
    while i < |inbound|
      invariant 0 <= i <= |inbound|
      invariant headers == WithoutHost(inbound[..i])
    {
      var h := inbound[i];
      assert inbound[..i + 1][..i] == inbound[..i];
      if h.name != "host" {
        headers := headers + [h];
      }
      i := i + 1;
    }
    assert inbound[..i] == inbound;
  }

  /** The loop of handler.rs:59-63: each upstream header is inserted into the
      response's header map, a later value of a name replacing an earlier one. */
  method CopyHeaders(upstream: seq<Header>) returns (copied: HeaderMap)
    ensures copied == CopiedHeaders(upstream)
  {
    copied := map[];
    var j := 0;
    while j < |upstream|
      invariant 0 <= j <= |upstream|
      invariant copied == MapFold.InsertAll(map[], Entries(upstream)[..j])
    {
      var h := upstream[j];
      assert Entries(upstream)[..j + 1][..j] == Entries(upstream)[..j];
      copied := copied[h.name := h.value];
      j := j + 1;
    }
    assert Entries(upstream)[..j] == Entries(upstream);
  }

  /** `handle_proxy` as the code runs it, with its two loops as the methods
      above. */
  method HandleProxy(state: ProxyState, route: string, req: Request, send: OutboundRequest -> SendOutcome)
    returns (sent: Option<OutboundRequest>, result: Result<Response, LuminaError>)
    ensures Exchange(sent, result) == Forward(state, route, req, send)
  {
    if route !in state.upstreams {
      return None, Err(InvalidRoute(NoUpstreamMessage(route)));
    }
    var upstreamBase := state.upstreams[route];
    var upstreamUrl := upstreamBase + PathAndQuery(req);
    var verb := req.verb;

    var headers := ForwardHeaders(req.headers);

    if req.body.Unreadable? {
      return None, Err(Internal("Failed to read body: " + req.body.reason));
    }
    var outbound := OutboundRequest(verb, upstreamUrl, headers, req.body.bytes);
    sent := Some(outbound);
    var outcome := send(outbound);
    if outcome.NetFail? {
      return sent, Err(UpstreamError(outcome.reason));
    }
    var res := outcome.response;

    var copied := CopyHeaders(res.headers);
    result := Ok(Response(res.status, copied, Streamed(res.body)));
  }

  /** Header filtering works piecewise, so it keeps the order of the forwarded
      headers: filtering a concatenation filters each part. */
  lemma {:induction false} WithoutHostConcat(a: seq<Header>, b: seq<Header>)
    ensures WithoutHost(a + b) == WithoutHost(a) + WithoutHost(b)
    decreases |b|
  {
    if b == [] {
      assert a + b == a;
    } else {
      var n := |b| - 1;
      assert (a + b)[..|a + b| - 1] == a + b[..n];
      WithoutHostConcat(a, b[..n]);
    }
  }

  /** Duplicates are preserved: every non-`host` header is forwarded as many
      times as it was received, and `host` never. */
  lemma {:induction false} WithoutHostCounts(headers: seq<Header>, h: Header)
    ensures multiset(WithoutHost(headers))[h] == if h.name == "host" then 0 else multiset(headers)[h]
    decreases |headers|
  {
    if headers != [] {
      var n := |headers| - 1;
      assert headers == headers[..n] + [headers[n]];
      WithoutHostCounts(headers[..n], h);
    }
  }

  /** A header list without `host` is forwarded unchanged. */
  lemma {:induction false} WithoutHostKeepsHostless(headers: seq<Header>)
    requires forall i :: 0 <= i < |headers| ==> headers[i].name != "host"
    ensures WithoutHost(headers) == headers
    decreases |headers|
  {
    if headers != [] {
      var n := |headers| - 1;
      assert headers == headers[..n] + [headers[n]];
      WithoutHostKeepsHostless(headers[..n]);
    }
  }

  /** Since header names are in `HeaderName`'s normal form, the exact
      comparison with "host" removes the Host header in every spelling: no
      forwarded header is `host` ignoring case. */
  lemma HostRemovedInAnyCase(headers: seq<Header>)
    ensures forall h :: h in WithoutHost(headers) ==> Lower(h.name) != "host"
  {
    forall h | h in WithoutHost(headers) ensures Lower(h.name) != "host" {
      assert Lower(h.name) == h.name;
    }
  }
}
