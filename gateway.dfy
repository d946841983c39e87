/** The pieces of src/main.rs with behaviour: the route table filled from the
    configured routes, and `handle_proxy_wrapper`, which turns the handler's
    result into a response. */
module Gateway {
  import opened Results
  import opened Http
  import opened Errors
  import opened Proxy
  import MapFold

  /** One configured route. `timeoutMs` is read from the file and never used. */
  datatype RouteConfig = RouteConfig(path: string, upstream: string, timeoutMs: Option<nat>)

  function RouteEntries(routes: seq<RouteConfig>): (es: seq<(string, string)>)
    ensures |es| == |routes|
    ensures forall i :: 0 <= i < |routes| ==> es[i] == (routes[i].path, routes[i].upstream)
  {
    seq(|routes|, i requires 0 <= i < |routes| => (routes[i].path, routes[i].upstream))
  }

  /** The configured paths. */
  function ConfiguredPaths(routes: seq<RouteConfig>): set<string>
  {
    MapFold.KeysOf(RouteEntries(routes))
  }

  /** Route `i` is the last configured route with its path. */
  predicate IsLastRoute(routes: seq<RouteConfig>, i: int)
  {
    MapFold.IsLast(RouteEntries(routes), i)
  }

  /** The route table: one key per configured path, mapped to the upstream of
      the LAST route with that path. A duplicate path is not an error; the
      later entry silently wins. */
  function BuildTable(routes: seq<RouteConfig>): (table: map<string, string>)
    ensures table.Keys == ConfiguredPaths(routes)
    ensures forall r :: r in routes ==> r.path in table
    ensures forall p :: p in table ==> exists i :: 0 <= i < |routes| && routes[i].path == p
    ensures forall i :: IsLastRoute(routes, i) ==> table[routes[i].path] == routes[i].upstream
  {
    var es := RouteEntries(routes);
    assert forall r :: r in routes ==> r.path in MapFold.KeysOf(es) by {
      forall r | r in routes ensures r.path in MapFold.KeysOf(es) {
        var i :| 0 <= i < |routes| && routes[i] == r;
        assert es[i].0 == r.path;
      }
    }
    MapFold.InsertAllKeys(map[], es);
    assert forall i | IsLastRoute(routes, i) :: MapFold.InsertAll(map[], es)[es[i].0] == es[i].1 by {
      forall i | IsLastRoute(routes, i) ensures MapFold.InsertAll(map[], es)[es[i].0] == es[i].1 {
        MapFold.InsertAllLastWins(map[], es, i);
      }
    }
    MapFold.InsertAll(map[], es)
  }

  /** The build loop of `main`: `upstreams.insert(path, upstream)` for each
      configured route, in order. */
  method BuildUpstreams(routes: seq<RouteConfig>) returns (upstreams: map<string, string>)
    ensures upstreams == BuildTable(routes)
    ensures upstreams.Keys == ConfiguredPaths(routes)
    ensures forall i :: IsLastRoute(routes, i) ==> upstreams[routes[i].path] == routes[i].upstream
  {
    upstreams := map[];
    for i := 0 to |routes|
      invariant upstreams == MapFold.InsertAll(map[], RouteEntries(routes)[..i])
    {
      var routeConfig := routes[i];
      assert RouteEntries(routes)[..i + 1][..i] == RouteEntries(routes)[..i];
      upstreams := upstreams[routeConfig.path := routeConfig.upstream];
    }
    assert RouteEntries(routes)[..|routes|] == RouteEntries(routes);
  }

  /** The loop only inserts: the table built from any prefix of the routes
      has no path the full table lacks. */
  lemma {:induction false} BuildTablePrefix(routes: seq<RouteConfig>, k: nat)
    requires k <= |routes|
    ensures BuildTable(routes[..k]).Keys <= BuildTable(routes).Keys
  {
    var es := RouteEntries(routes);
    assert RouteEntries(routes[..k]) == es[..k];
    MapFold.PrefixKeysIncluded(map[], es, k);
  }

  /** Two routes with the same path: the second one's upstream is kept. */
  lemma DuplicatePathLastWins()
    ensures BuildTable([RouteConfig("users", "http://a:9001", None),
                        RouteConfig("users", "http://b:9002", Some(500))])
            == map["users" := "http://b:9002"]
  {
    var routes := [RouteConfig("users", "http://a:9001", None), RouteConfig("users", "http://b:9002", Some(500))];
    assert IsLastRoute(routes, 1);
    assert BuildTable(routes).Keys == {"users"} by {
      assert routes[0].path == routes[1].path == "users";
    }
  }

  /** `timeoutMs` plays no part in the table. */
  lemma {:induction false} TimeoutIgnored(routes: seq<RouteConfig>, other: seq<RouteConfig>)
    requires |routes| == |other|
    requires forall i :: 0 <= i < |routes| ==>
      routes[i].path == other[i].path && routes[i].upstream == other[i].upstream
    ensures BuildTable(routes) == BuildTable(other)
  {
    assert RouteEntries(routes) == RouteEntries(other);
  }

  /** The path string `handle_proxy_wrapper` rebuilds from its captures (and
      then does not use). */
  function RebuiltPath(route: string, remainder: string): string
  {
    "/api/" + route + "/" + remainder
  }

  /** The rebuilt path determines both captures when the route holds no '/'
      (a route segment decoded from `%2F` breaks this). */
  lemma {:induction false} RebuiltPathInjective(r1: string, x1: string, r2: string, x2: string)
    requires '/' !in r1 && '/' !in r2
    requires RebuiltPath(r1, x1) == RebuiltPath(r2, x2)
    ensures r1 == r2 && x1 == x2
  {
    var p := RebuiltPath(r1, x1);
    assert forall k :: 0 <= k < |r1| ==> p[5 + k] == r1[k];
    assert forall k :: 0 <= k < |r2| ==> p[5 + k] == r2[k];
    assert p[5 + |r1|] == '/' && p[5 + |r2|] == '/';
    assert |r1| == |r2|;
    assert r1 == p[5..5 + |r1|] == r2;
    assert x1 == p[6 + |r1|..] == x2;
  }

  /** The handler gets the request's full path-and-query, not the remainder:
      for a request to `/api/<route>/<remainder><query>` the upstream URL keeps
      the `/api/<route>/` prefix after the upstream base. */
  lemma UrlKeepsApiPrefix(state: ProxyState, route: string, remainder: string, query: string,
                          req: Request, send: OutboundRequest -> SendOutcome)
    requires req.pathAndQuery == Some(RebuiltPath(route, remainder) + query)
    requires route in state.upstreams && req.body.Readable?
    ensures Forward(state, route, req, send).sent.Some?
    ensures Forward(state, route, req, send).sent.value.url
            == state.upstreams[route] + "/api/" + route + "/" + remainder + query
  {
  }

  /** `handle_proxy_wrapper`: the handler's response on `Ok`, the mapped error
      response on `Err`. Only `route` reaches the handler; `pathRemainder`
      goes into the unused rebuilt path alone. */
  method HandleProxyWrapper(state: ProxyState, route: string, pathRemainder: string, req: Request,
                            send: OutboundRequest -> SendOutcome)
    returns (sent: Option<OutboundRequest>, response: Response)
    ensures var x := Forward(state, route, req, send);
      && sent == x.sent
      && (x.result.Ok? ==> response == x.result.value)
      && (x.result.Err? ==> response == IntoResponse(x.result.error))
    ensures route !in state.upstreams ==>
      && sent.None?
      && response.status == 404
      && response.body == Json(ErrorDocument(NoUpstreamMessage(route), 404))
    ensures sent.Some? && send(sent.value).NetFail? ==> response.status == 502
  {
    var path := RebuiltPath(route, pathRemainder);
    var result;
    sent, result := HandleProxy(state, route, req, send);
    match result
    case Ok(resp) => response := resp;
    case Err(e) => response := IntoResponse(e);
  }
}
