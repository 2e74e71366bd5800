/**
 The pure middle of `WebServer`: the route table and its fluent setters, the
 extraction of the request target from the request text, first-match route
 lookup, the choice between matched route, default route and no response,
 and the folding of decoded query pairs into a `Query`.

 The `url` crate is outside the model: a connection is handled against an
 arbitrary URL parser, given as a parameter, which turns the text
 "http://localhost" + target into a path and a sequence of decoded query
 pairs, or fails.
 */
module Server {
  import opened Wrappers
  import Text
  import Responses

  /** `Query`: each key with its values in the order they were met. */
  type Query = map<string, seq<string>>

  /** A request handler, `Fn(Query) -> Response`. */
  type Handler = Query -> Responses.Response

  /** A read timeout; its unit plays no part in the model. */
  type Duration = nat

  datatype Route = Route(path: string, handler: Handler)

  /** The server's configuration; the listening socket is outside the model. */
  datatype WebServer = WebServer(routes: seq<Route>, defaultRoute: Option<Handler>, readTimeout: Option<Duration>)

  // ---------------------------------------------------------------------------
  // Building the server
  // ---------------------------------------------------------------------------

  /**
   `bind`: when the operating system binds the listener, a server with no
   route, no default route and no read timeout; otherwise the bind error.
   */
  function Bind(listenerBound: bool): (r: Option<WebServer>)
    ensures r.Some? <==> listenerBound
    ensures r.Some? ==> r.value.routes == [] && r.value.defaultRoute.None? && r.value.readTimeout.None?
  {
    if listenerBound then Some(WebServer([], None, None)) else None
  }

  /** `read_timeout`: sets the timeout and nothing else. */
  function WithReadTimeout(s: WebServer, timeout: Duration): (r: WebServer)
    ensures r.readTimeout == Some(timeout)
    ensures r.routes == s.routes && r.defaultRoute == s.defaultRoute
  {
    s.(readTimeout := Some(timeout))
  }

  /** `default_route`: replaces any earlier default and nothing else. */
  function WithDefaultRoute(s: WebServer, f: Handler): (r: WebServer)
    ensures r.defaultRoute == Some(f)
    ensures r.routes == s.routes && r.readTimeout == s.readTimeout
  {
    s.(defaultRoute := Some(f))
  }

  /** `route`: appends one route after all earlier ones; paths may repeat. */
  function WithRoute(s: WebServer, path: string, f: Handler): (r: WebServer)
    ensures |r.routes| == |s.routes| + 1
    ensures r.routes[..|s.routes|] == s.routes
    ensures r.routes[|s.routes|] == Route(path, f)
    ensures r.defaultRoute == s.defaultRoute && r.readTimeout == s.readTimeout
  {
    s.(routes := s.routes + [Route(path, f)])
  }

  /** One link of a configuration chain such as `.route(p, f).default_route(g)`. */
  datatype ServerCall =
    | AddRoute(path: string, handler: Handler)
    | SetDefault(handler: Handler)
    | SetTimeout(timeout: Duration)

  function ConfigureOne(s: WebServer, c: ServerCall): WebServer
  {
    match c
    case AddRoute(p, f) => WithRoute(s, p, f)
    case SetDefault(f) => WithDefaultRoute(s, f)
    case SetTimeout(t) => WithReadTimeout(s, t)
  }

  /** A chain of calls, applied left to right. */
  function Configure(s: WebServer, calls: seq<ServerCall>): WebServer
    decreases |calls|
  {
    if calls == [] then s else Configure(ConfigureOne(s, calls[0]), calls[1..])
  }

  /** The routes of the `AddRoute` calls, in call order. */
  function AddedRoutes(calls: seq<ServerCall>): seq<Route>
    decreases |calls|
  {
    if calls == [] then []
    else
      var c := calls[|calls| - 1];
      AddedRoutes(calls[..|calls| - 1]) + (if c.AddRoute? then [Route(c.path, c.handler)] else [])
  }

  /** The handler of the last `SetDefault` call, or `dflt` when there is none. */
  function LastDefault(calls: seq<ServerCall>, dflt: Option<Handler>): Option<Handler>
    decreases |calls|
  {
    if calls == [] then dflt
    else if calls[|calls| - 1].SetDefault? then Some(calls[|calls| - 1].handler)
    else LastDefault(calls[..|calls| - 1], dflt)
  }

  /** The timeout of the last `SetTimeout` call, or `dflt` when there is none. */
  function LastTimeout(calls: seq<ServerCall>, dflt: Option<Duration>): Option<Duration>
    decreases |calls|
  {
    if calls == [] then dflt
    else if calls[|calls| - 1].SetTimeout? then Some(calls[|calls| - 1].timeout)
    else LastTimeout(calls[..|calls| - 1], dflt)
  }

  lemma {:induction false} ConfigureSnoc(s: WebServer, calls: seq<ServerCall>, c: ServerCall)
    ensures Configure(s, calls + [c]) == ConfigureOne(Configure(s, calls), c)
    decreases |calls|
  {
    if calls != [] {
      assert (calls + [c])[1..] == calls[1..] + [c];
      ConfigureSnoc(ConfigureOne(s, calls[0]), calls[1..], c);
    }
  }

  /**
   What a configuration chain produces: every route added is kept, in call
   order, after the existing ones; the last default and the last timeout win.
   */
  lemma {:induction false} ConfigureMeaning(s: WebServer, calls: seq<ServerCall>)
    ensures Configure(s, calls).routes == s.routes + AddedRoutes(calls)
    ensures Configure(s, calls).defaultRoute == LastDefault(calls, s.defaultRoute)
    ensures Configure(s, calls).readTimeout == LastTimeout(calls, s.readTimeout)
    decreases |calls|
  {
    if calls != [] {
      var init := calls[..|calls| - 1];
      var c := calls[|calls| - 1];
      assert calls == init + [c];
      ConfigureSnoc(s, init, c);
      ConfigureMeaning(s, init);
    }
  }

  // ---------------------------------------------------------------------------
  // The request target
  // ---------------------------------------------------------------------------

  /**
   `get_requested_path`: the second whitespace-separated token of the first
   line, or "/" when that line has fewer than two tokens.
   */
  function GetRequestedPath(request: string): (path: string)
    ensures path != [] && Text.NoWhitespace(path)
    ensures |Text.Tokens(Text.FirstLine(request))| < 2 ==> path == "/"
    ensures |Text.Tokens(Text.FirstLine(request))| >= 2 ==> path == Text.Tokens(Text.FirstLine(request))[1]
  {
    Nth(Text.Tokens(Text.FirstLine(request)), 1).UnwrapOr("/")
  }

  /** Rust's `Iterator::nth`: the element at index `n`, if there is one. */
  function Nth<T>(xs: seq<T>, n: nat): (r: Option<T>)
    ensures r.Some? <==> n < |xs|
    ensures r.Some? ==> r.value == xs[n]
  {
    if n < |xs| then Some(xs[n]) else None
  }

  /** The three parts of a request line are its tokens. */
  lemma RequestLineTokens(verb: string, target: string, version: string)
    requires verb != [] && Text.NoWhitespace(verb)
    requires target != [] && Text.NoWhitespace(target)
    requires version != [] && Text.NoWhitespace(version)
    ensures Text.Tokens(verb + " " + target + " " + version) == [verb, target, version]
  {
    var tail := " " + version;
    var mid := " " + target + " " + version;
    var line := verb + " " + target + " " + version;
    assert tail == " " + version + "";
    assert mid == " " + target + tail;
    assert line == "" + verb + mid;
    Text.TokensOfWhitespace("");
    Text.TokensCons(" ", version, "");
    Text.TokensCons(" ", target, tail);
    Text.TokensCons("", verb, mid);
  }

  /** A request line holds no line feed. */
  lemma RequestLineHasNoLineFeed(verb: string, target: string, version: string)
    requires Text.NoWhitespace(verb) && Text.NoWhitespace(target) && Text.NoWhitespace(version)
    ensures '\n' !in verb + " " + target + " " + version
  {
    assert Text.IsWhitespace('\n');
  }

  /** A request line "<method> <target> <version>" CRLF yields its target, whatever follows. */
  lemma RequestLineTarget(verb: string, target: string, version: string, rest: string)
    requires verb != [] && Text.NoWhitespace(verb)
    requires target != [] && Text.NoWhitespace(target)
    requires version != [] && Text.NoWhitespace(version)
    ensures GetRequestedPath(verb + " " + target + " " + version + "\r\n" + rest) == target
  {
    var line := verb + " " + target + " " + version;
    RequestLineHasNoLineFeed(verb, target, version);
    Text.FirstLineCrlf(line, rest);
    RequestLineTokens(verb, target, version);
  }

  /** The same through the read buffer: the zero bytes after the request change nothing. */
  lemma ReceivedRequestTarget(verb: string, target: string, version: string, rest: string)
    requires verb != [] && Text.NoWhitespace(verb)
    requires target != [] && Text.NoWhitespace(target)
    requires version != [] && Text.NoWhitespace(version)
    requires |verb + " " + target + " " + version + "\r\n" + rest| <= BufferSize
    ensures GetRequestedPath(RequestBuffer(verb + " " + target + " " + version + "\r\n" + rest)) == target
  {
    var received := verb + " " + target + " " + version + "\r\n" + rest;
    var pad := RequestBuffer(received)[|received|..];
    assert RequestBuffer(received) == verb + " " + target + " " + version + "\r\n" + (rest + pad);
    RequestLineTarget(verb, target, version, rest + pad);
  }

  /**
   A request with no whitespace at all, the empty one included, yields "/":
   through the zero-padded buffer its first line is one single token.
   */
  lemma OneWordFallsBack(received: string)
    requires |received| <= BufferSize
    requires Text.NoWhitespace(received)
    ensures GetRequestedPath(RequestBuffer(received)) == "/"
  {
    var buf := RequestBuffer(received);
    assert Text.NoWhitespace(buf) by {
      forall i | 0 <= i < |buf| ensures !Text.IsWhitespace(buf[i]) {
        if i < |received| {
          assert buf[i] == buf[..|received|][i] == received[i];
        }
      }
    }
    assert Text.IsWhitespace('\n');
    assert Text.FirstLine(buf) == buf;
    assert buf == "" + buf + "";
    Text.TokensCons("", buf, "");
    Text.TokensOfWhitespace("");
  }

  // ---------------------------------------------------------------------------
  // Route lookup and dispatch
  // ---------------------------------------------------------------------------

  /** The index of the first route whose path equals `path`, searching from `from`. */
  function FindRouteFrom(routes: seq<Route>, path: string, from: nat): (r: Option<nat>)
    requires from <= |routes|
    ensures r.Some? ==> from <= r.value < |routes| && routes[r.value].path == path
    ensures r.Some? ==> forall j :: from <= j < r.value ==> routes[j].path != path
    ensures r.None? ==> forall j :: from <= j < |routes| ==> routes[j].path != path
    decreases |routes| - from
  {
    if from == |routes| then None
    else if routes[from].path == path then Some(from)
    else FindRouteFrom(routes, path, from + 1)
  }

  /** `routes.iter().find(|(p, _)| p == path)`: the first route with exactly this path. */
  function FindRoute(routes: seq<Route>, path: string): (r: Option<nat>)
    ensures r.Some? ==> r.value < |routes| && routes[r.value].path == path
    ensures r.Some? ==> forall j :: 0 <= j < r.value ==> routes[j].path != path
    ensures r.None? <==> forall j :: 0 <= j < |routes| ==> routes[j].path != path
  {
    FindRouteFrom(routes, path, 0)
  }

  /** Which handler serves a request. */
  datatype Choice = Matched(index: nat) | Fallback | NoHandler

  /**
   `route_fn.is_some() || default_route.is_some()`, then `unwrap_or_else`:
   the first route with the path, else the default route, else nothing.
   */
  function Choose(s: WebServer, path: string): (c: Choice)
    ensures (exists i :: 0 <= i < |s.routes| && s.routes[i].path == path) <==> c.Matched?
    ensures c.Matched? ==> c.index < |s.routes| && s.routes[c.index].path == path
    ensures c.Matched? ==> forall j :: 0 <= j < c.index ==> s.routes[j].path != path
    ensures c == Fallback <==> s.defaultRoute.Some? && forall j :: 0 <= j < |s.routes| ==> s.routes[j].path != path
    ensures c == NoHandler <==> s.defaultRoute.None? && forall j :: 0 <= j < |s.routes| ==> s.routes[j].path != path
  {
    match FindRoute(s.routes, path)
    case Some(i) => Matched(i)
    case None => if s.defaultRoute.Some? then Fallback else NoHandler
  }

  /** Of two routes with the same path, the later one is never chosen. */
  lemma ShadowedRouteNeverChosen(s: WebServer, i: nat, j: nat, path: string)
    requires i < j < |s.routes|
    requires s.routes[i].path == s.routes[j].path
    ensures Choose(s, path) != Matched(j)
  {
  }

  // ---------------------------------------------------------------------------
  // The query map
  // ---------------------------------------------------------------------------

  /** `entry(k).or_default().push(v)`. */
  function AddPair(q: Query, k: string, v: string): (r: Query)
    ensures r.Keys == q.Keys + {k}
    ensures forall j :: j in q && j != k ==> r[j] == q[j]
    ensures |r[k]| == (if k in q then |q[k]| else 0) + 1 && r[k][|r[k]| - 1] == v
    ensures k in q ==> r[k][..|q[k]|] == q[k]
  {
    q[k := (if k in q then q[k] else []) + [v]]
  }

  /** Folds the decoded query pairs, in order, into a `Query`. */
  function CollectQuery(pairs: seq<(string, string)>): (q: Query)
    decreases |pairs|
  {
    if pairs == [] then map[]
    else
      var p := pairs[|pairs| - 1];
      AddPair(CollectQuery(pairs[..|pairs| - 1]), p.0, p.1)
  }

  /** The keys that occur in `pairs`. */
  function KeysOf(pairs: seq<(string, string)>): set<string>
  {
    set i | 0 <= i < |pairs| :: pairs[i].0
  }

  /** The values paired with `k`, in their order in `pairs`. */
  function ValuesFor(pairs: seq<(string, string)>, k: string): seq<string>
    decreases |pairs|
  {
    if pairs == [] then []
    else (if pairs[0].0 == k then [pairs[0].1] else []) + ValuesFor(pairs[1..], k)
  }

  lemma {:induction false} ValuesForSnoc(pairs: seq<(string, string)>, p: (string, string), k: string)
    ensures ValuesFor(pairs + [p], k) == ValuesFor(pairs, k) + (if p.0 == k then [p.1] else [])
    decreases |pairs|
  {
    if pairs == [] {
      assert ([] + [p])[1..] == [];
    } else {
      assert (pairs + [p])[1..] == pairs[1..] + [p];
      ValuesForSnoc(pairs[1..], p, k);
    }
  }

  lemma {:induction false} ValuesForAbsent(pairs: seq<(string, string)>, k: string)
    requires k !in KeysOf(pairs)
    ensures ValuesFor(pairs, k) == []
    decreases |pairs|
  {
    if pairs != [] {
      assert pairs[0].0 in KeysOf(pairs);
      assert KeysOf(pairs[1..]) <= KeysOf(pairs) by {
        forall x | x in KeysOf(pairs[1..]) ensures x in KeysOf(pairs) {
          var i :| 0 <= i < |pairs[1..]| && pairs[1..][i].0 == x;
          assert pairs[i + 1].0 == x;
        }
      }
      ValuesForAbsent(pairs[1..], k);
    }
  }

  /**
   The query map has exactly the keys of the pairs, and each key maps to the
   values paired with it, in the order they were met.
   */
  lemma {:induction false} CollectQueryMeaning(pairs: seq<(string, string)>)
    ensures CollectQuery(pairs).Keys == KeysOf(pairs)
    ensures forall k :: k in CollectQuery(pairs) ==> CollectQuery(pairs)[k] == ValuesFor(pairs, k)
    decreases |pairs|
  {
    if pairs != [] {
      var init := pairs[..|pairs| - 1];
      var p := pairs[|pairs| - 1];
      assert pairs == init + [p];
      CollectQueryMeaning(init);
      assert KeysOf(pairs) == KeysOf(init) + {p.0} by {
        forall k | k in KeysOf(pairs) ensures k in KeysOf(init) + {p.0} {
          var i :| 0 <= i < |pairs| && pairs[i].0 == k;
          if i < |init| {
            assert init[i] == pairs[i];
          }
        }
        forall k | k in KeysOf(init) ensures k in KeysOf(pairs) {
          var i :| 0 <= i < |init| && init[i].0 == k;
          assert pairs[i] == init[i];
        }
      }
      forall k | k in CollectQuery(pairs)
        ensures CollectQuery(pairs)[k] == ValuesFor(pairs, k)
      {
        ValuesForSnoc(init, p, k);
        if k !in CollectQuery(init) {
          ValuesForAbsent(init, k);
        }
      }
    }
  }

  /** The distinct keys of `pairs`, in order of first appearance. */
  function KeyOrder(pairs: seq<(string, string)>): seq<string>
    decreases |pairs|
  {
    if pairs == [] then []
    else
      var ks := KeyOrder(pairs[..|pairs| - 1]);
      var k := pairs[|pairs| - 1].0;
      if k in ks then ks else ks + [k]
  }

  /** The number of values that `q` holds under the keys `ks`. */
  function TotalValues(q: Query, ks: seq<string>): nat
    decreases |ks|
  {
    if ks == [] then 0
    else
      var k := ks[|ks| - 1];
      TotalValues(q, ks[..|ks| - 1]) + (if k in q then |q[k]| else 0)
  }

  predicate Distinct(ks: seq<string>) {
    forall i, j :: 0 <= i < j < |ks| ==> ks[i] != ks[j]
  }

  /** Adding a value under `k` adds one to the total over `ks` when `k` occurs in `ks` once. */
  lemma {:induction false} TotalAfterAdd(q: Query, ks: seq<string>, k: string, v: string)
    requires Distinct(ks)
    ensures TotalValues(AddPair(q, k, v), ks) == TotalValues(q, ks) + (if k in ks then 1 else 0)
    decreases |ks|
  {
    if ks != [] {
      var init := ks[..|ks| - 1];
      var last := ks[|ks| - 1];
      TotalAfterAdd(q, init, k, v);
      assert k in ks <==> k in init || k == last;
      if k == last {
        assert k !in init;
      }
    }
  }

  /**
   Every pair is kept: the distinct keys, in first-appearance order, are
   exactly the map's keys, and their values number as many as the pairs.
   */
  lemma {:induction false} CollectQueryCount(pairs: seq<(string, string)>)
    ensures Distinct(KeyOrder(pairs))
    ensures (set k | k in KeyOrder(pairs)) == CollectQuery(pairs).Keys
    ensures TotalValues(CollectQuery(pairs), KeyOrder(pairs)) == |pairs|
    decreases |pairs|
  {
    if pairs != [] {
      var init := pairs[..|pairs| - 1];
      var p := pairs[|pairs| - 1];
      CollectQueryCount(init);
      var q := CollectQuery(init);
      var ks := KeyOrder(init);
      TotalAfterAdd(q, ks, p.0, p.1);
      if p.0 !in ks {
        assert p.0 !in q;
        assert (ks + [p.0])[..|ks|] == ks;
      }
    }
  }

  /** The query maps of `a=b` and of `a=b&a=c`; no pair gives the empty map. */
  lemma CollectQueryExamples()
    ensures CollectQuery([]) == map[]
    ensures CollectQuery([("a", "b")]) == map["a" := ["b"]]
    ensures CollectQuery([("a", "b"), ("a", "c")]) == map["a" := ["b", "c"]]
  {
    var one := [("a", "b")];
    var two := [("a", "b"), ("a", "c")];
    assert one[..0] == [];
    assert CollectQuery(one) == map[]["a" := [] + ["b"]];
    assert [] + ["b"] == ["b"];
    assert two[..1] == one;
    assert CollectQuery(two) == CollectQuery(one)["a" := ["b"] + ["c"]];
    assert ["b"] + ["c"] == ["b", "c"];
  }

  // ---------------------------------------------------------------------------
  // Handling one connection
  // ---------------------------------------------------------------------------

  /** The size of the single read from the socket. */
  const BufferSize: nat := 1024

  /** The text the request is parsed from: what was read, then the buffer's zero bytes. */
  function RequestBuffer(received: string): (buf: string)
    requires |received| <= BufferSize
    ensures |buf| == BufferSize
    ensures buf[..|received|] == received
    ensures forall i :: |received| <= i < BufferSize ==> buf[i] == '\0'
  {
    received + seq(BufferSize - |received|, _ => '\0')
  }

  /** What the `url` crate makes of "http://localhost" + target. */
  datatype Url = Url(path: string, queryPairs: seq<(string, string)>)

  type UrlParser = string -> Option<Url>

  /** The base the target is appended to before URL parsing. */
  const UrlBase: string := "http://localhost"

  /** How the handling of one connection ends. */
  datatype Outcome =
    | Responded(response: Responses.Response)   // written as `Responses.Render`; see `Responses.RenderTerminated`
    | ClosedSilently                             // no handler: nothing is written
    | UrlPanic                                   // the URL parser failed, `unwrap` panics

  /** The handler chosen for `path`, if any. */
  function ResolveHandler(s: WebServer, path: string): (h: Option<Handler>)
    ensures h.None? <==> Choose(s, path) == NoHandler
    ensures Choose(s, path).Matched? ==> h == Some(s.routes[Choose(s, path).index].handler)
    ensures Choose(s, path) == Fallback ==> h == s.defaultRoute
  {
    match Choose(s, path)
    case Matched(i) => Some(s.routes[i].handler)
    case Fallback => s.defaultRoute
    case NoHandler => None
  }

  /** The pure middle of `handle_connection`, from the bytes read to the response written. */
  function HandleConnection(s: WebServer, received: string, parseUrl: UrlParser): (o: Outcome)
    requires |received| <= BufferSize
    ensures o == UrlPanic <==> parseUrl(UrlBase + GetRequestedPath(RequestBuffer(received))).None?
    ensures o == ClosedSilently ==> forall j :: 0 <= j < |s.routes| ==> s.routes[j].path != parseUrl(UrlBase + GetRequestedPath(RequestBuffer(received))).value.path
  {
    var target := GetRequestedPath(RequestBuffer(received));
    match parseUrl(UrlBase + target)
    case None => UrlPanic
    case Some(url) =>
      match ResolveHandler(s, url.path)
      case None => ClosedSilently
      case Some(f) => Responded(f(CollectQuery(url.queryPairs)))
  }

  /**
   Once the URL is parsed, the first route with its path answers with the
   query map; failing that the default route does; failing that nothing is
   written.
   */
  lemma HandleConnectionDispatch(s: WebServer, received: string, parseUrl: UrlParser, url: Url)
    requires |received| <= BufferSize
    requires parseUrl(UrlBase + GetRequestedPath(RequestBuffer(received))) == Some(url)
    ensures var o := HandleConnection(s, received, parseUrl);
            var q := CollectQuery(url.queryPairs);
            match FindRoute(s.routes, url.path)
            case Some(i) => o == Responded(s.routes[i].handler(q))
            case None =>
              if s.defaultRoute.Some? then o == Responded(s.defaultRoute.value(q))
              else o == ClosedSilently
  {
  }

  /**
   A route registered for a path no earlier route has serves every request
   for that path, whatever routes or defaults are added later.
   */
  lemma RegisteredRouteServes(s: WebServer, path: string, f: Handler, later: seq<ServerCall>,
                              received: string, parseUrl: UrlParser, query: seq<(string, string)>)
    requires forall j :: 0 <= j < |s.routes| ==> s.routes[j].path != path
    requires |received| <= BufferSize
    requires parseUrl(UrlBase + GetRequestedPath(RequestBuffer(received))) == Some(Url(path, query))
    ensures HandleConnection(Configure(WithRoute(s, path, f), later), received, parseUrl)
            == Responded(f(CollectQuery(query)))
  {
    var s1 := WithRoute(s, path, f);
    ConfigureMeaning(s1, later);
    var s2 := Configure(s1, later);
    assert s2.routes[|s.routes|] == Route(path, f);
    var r := FindRoute(s2.routes, path);
    assert r == Some(|s.routes|) by {
      assert forall j :: 0 <= j < |s.routes| ==> s2.routes[j] == s.routes[j];
    }
  }

  /** The words of the request lines below hold no whitespace. */
  lemma RequestWords()
    ensures Text.NoWhitespace("GET") && Text.NoWhitespace("HTTP/1.1")
    ensures Text.NoWhitespace("/foo") && Text.NoWhitespace("/bar")
    ensures Text.NoWhitespace("/") && Text.NoWhitespace("/get/data?a=b")
  {
  }

  /** "GET <path> HTTP/1.1" CRLF, read through the buffer, yields the path. */
  lemma GetRequestTarget(path: string, rest: string)
    requires path != [] && Text.NoWhitespace(path)
    requires |"GET" + " " + path + " " + "HTTP/1.1" + "\r\n" + rest| <= BufferSize
    ensures GetRequestedPath(RequestBuffer("GET" + " " + path + " " + "HTTP/1.1" + "\r\n" + rest)) == path
  {
    RequestWords();
    ReceivedRequestTarget("GET", path, "HTTP/1.1", rest);
  }

  /** A server with "/foo" as its only route and no default route. */
  function FooServer(foo: Handler): (s: WebServer)
    ensures s.routes == [Route("/foo", foo)] && s.defaultRoute.None?
  {
    WithRoute(Bind(true).value, "/foo", foo)
  }

  /** End to end: "GET /foo" gets the response of the "/foo" handler. */
  lemma FooIsServed(foo: Handler, parseUrl: UrlParser, rest: string)
    requires |rest| <= 1000
    requires parseUrl(UrlBase + "/foo") == Some(Url("/foo", []))
    ensures HandleConnection(FooServer(foo), "GET" + " " + "/foo" + " " + "HTTP/1.1" + "\r\n" + rest, parseUrl)
            == Responded(foo(map[]))
  {
    var received := "GET" + " " + "/foo" + " " + "HTTP/1.1" + "\r\n" + rest;
    GetRequestTarget("/foo", rest);
    HandleConnectionDispatch(FooServer(foo), received, parseUrl, Url("/foo", []));
    assert FindRoute(FooServer(foo).routes, "/foo") == Some(0);
  }

  /** End to end: "GET /bar" matches nothing and the connection is closed with nothing written. */
  lemma BarIsDropped(foo: Handler, parseUrl: UrlParser, rest: string)
    requires |rest| <= 1000
    requires parseUrl(UrlBase + "/bar") == Some(Url("/bar", []))
    ensures HandleConnection(FooServer(foo), "GET" + " " + "/bar" + " " + "HTTP/1.1" + "\r\n" + rest, parseUrl)
            == ClosedSilently
  {
    var received := "GET" + " " + "/bar" + " " + "HTTP/1.1" + "\r\n" + rest;
    GetRequestTarget("/bar", rest);
    HandleConnectionDispatch(FooServer(foo), received, parseUrl, Url("/bar", []));
    assert "/foo"[1] != "/bar"[1];
    assert FindRoute(FooServer(foo).routes, "/bar") == None;
  }

  /** The `default_route` test: a server with only a default route answers "GET /" with it. */
  lemma DefaultRouteAnswers(g: Handler, parseUrl: UrlParser, rest: string)
    requires |rest| <= 1000
    requires parseUrl(UrlBase + "/") == Some(Url("/", []))
    ensures HandleConnection(WithDefaultRoute(Bind(true).value, g), "GET" + " " + "/" + " " + "HTTP/1.1" + "\r\n" + rest, parseUrl)
            == Responded(g(map[]))
  {
    var received := "GET" + " " + "/" + " " + "HTTP/1.1" + "\r\n" + rest;
    var s := WithDefaultRoute(Bind(true).value, g);
    GetRequestTarget("/", rest);
    HandleConnectionDispatch(s, received, parseUrl, Url("/", []));
    assert FindRoute(s.routes, "/") == None;
  }

  /** The `routes_and_query` test: "GET /get/data?a=b" reaches its route with the query a = ["b"]. */
  lemma RoutesAndQuery(f: Handler, parseUrl: UrlParser, rest: string)
    requires |rest| <= 990
    requires parseUrl(UrlBase + "/get/data?a=b") == Some(Url("/get/data", [("a", "b")]))
    ensures HandleConnection(WithRoute(Bind(true).value, "/get/data", f),
                             "GET" + " " + "/get/data?a=b" + " " + "HTTP/1.1" + "\r\n" + rest, parseUrl)
            == Responded(f(map["a" := ["b"]]))
  {
    var received := "GET" + " " + "/get/data?a=b" + " " + "HTTP/1.1" + "\r\n" + rest;
    var s := WithRoute(Bind(true).value, "/get/data", f);
    GetRequestTarget("/get/data?a=b", rest);
    HandleConnectionDispatch(s, received, parseUrl, Url("/get/data", [("a", "b")]));
    assert FindRoute(s.routes, "/get/data") == Some(0);
    var one := [("a", "b")];
    assert one[..0] == [];
    assert CollectQuery(one) == map[]["a" := [] + ["b"]];
    assert [] + ["b"] == ["b"];
  }
}
