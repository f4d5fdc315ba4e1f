/** The gateway's route table: the longest match wins. Paths are the UTF-8
    bytes of the source's strings. */
module Router {
  import opened Common

  datatype MatchType = Prefix | Exact

  /** `upstream` stands for everything a route says besides when it applies. */
  datatype RouteConfig = RouteConfig(path: seq<byte>, matchType: MatchType, upstream: string)

  const SLASH: byte := 47

  predicate IsPrefixMatch(prefix: seq<byte>, path: seq<byte>) {
    prefix <= path && (|path| == |prefix| || path[|prefix|] == SLASH)
  }

  predicate Matches(route: RouteConfig, request: seq<byte>) {
    match route.matchType
    case Exact => request == route.path
    case Prefix => IsPrefixMatch(route.path, request)
  }

  /** Order of the keys `(path.len(), is_exact)`. */
  predicate Above(a: RouteConfig, b: RouteConfig) {
    |a.path| > |b.path| || (|a.path| == |b.path| && a.matchType.Exact? && b.matchType.Prefix?)
  }

  function Choose(best: Option<RouteConfig>, route: RouteConfig, request: seq<byte>): Option<RouteConfig> {
    if !Matches(route, request) then best
    else if best.None? || Above(route, best.value) then Some(route)
    else best
  }

  /** The fold of `match_route` over the table. */
  function MatchRoute(routes: seq<RouteConfig>, request: seq<byte>): Option<RouteConfig> {
    if routes == [] then None
    else Choose(MatchRoute(routes[..|routes| - 1], request), routes[|routes| - 1], request)
  }

  /** Route `i` is the first of the matching routes with the greatest key. */
  ghost predicate FirstBest(routes: seq<RouteConfig>, request: seq<byte>, i: nat)
    requires i < |routes|
  {
    && Matches(routes[i], request)
    && (forall j | 0 <= j < |routes| && Matches(routes[j], request) :: !Above(routes[j], routes[i]))
    && (forall j | 0 <= j < i && Matches(routes[j], request) :: Above(routes[i], routes[j]))
  }

  /** Adding a route to the end of the table. */
  lemma FirstBestExtends(routes: seq<RouteConfig>, request: seq<byte>, i: nat)
    requires 0 < |routes| && i < |routes| - 1 && FirstBest(routes[..|routes| - 1], request, i)
    ensures var last := |routes| - 1;
            if Matches(routes[last], request) && Above(routes[last], routes[i])
            then FirstBest(routes, request, last) else FirstBest(routes, request, i)
  {
    var last := |routes| - 1;
    assert forall j | 0 <= j < last :: routes[..last][j] == routes[j];
  }

  lemma {:induction false} MatchRouteIsFirstBest(routes: seq<RouteConfig>, request: seq<byte>)
    ensures MatchRoute(routes, request).None? <==> forall j | 0 <= j < |routes| :: !Matches(routes[j], request)
    ensures MatchRoute(routes, request).Some? ==>
              exists i | 0 <= i < |routes| ::
                routes[i] == MatchRoute(routes, request).value && FirstBest(routes, request, i)
  {
    if routes != [] {
      var last := |routes| - 1;
      MatchRouteIsFirstBest(routes[..last], request);
      var best := MatchRoute(routes[..last], request);
      if best.Some? {
        var i :| 0 <= i < last && routes[i] == best.value && FirstBest(routes[..last], request, i);
        FirstBestExtends(routes, request, i);
      } else {
        assert forall j | 0 <= j < last :: routes[..last][j] == routes[j];
        assert Matches(routes[last], request) ==> FirstBest(routes, request, last);
      }
    }
  }

  /** When a route applies: its path is the request's, or, for a prefix route,
      its path begins the request's and ends at its end or before a slash. */
  lemma MatchesMeans(route: RouteConfig, request: seq<byte>)
    ensures Matches(route, request) <==>
              if route.matchType.Exact? then request == route.path
              else
                && |route.path| <= |request|
                && (forall k | 0 <= k < |route.path| :: request[k] == route.path[k])
                && (|request| == |route.path| || request[|route.path|] as int == '/' as int)
  {
    if |route.path| <= |request| {
      assert route.path <= request <==> forall k | 0 <= k < |route.path| :: request[k] == route.path[k];
    }
  }

  /** The chosen route applies, no other that applies has a longer path, none of
      the same length is exact if it is not, and it is the first such route. */
  lemma LongestMatchWins(routes: seq<RouteConfig>, request: seq<byte>) returns (i: nat)
    requires MatchRoute(routes, request).Some?
    ensures i < |routes| && routes[i] == MatchRoute(routes, request).value && Matches(routes[i], request)
    ensures forall j | 0 <= j < |routes| && Matches(routes[j], request) ::
              |routes[j].path| <= |routes[i].path|
              && (|routes[j].path| == |routes[i].path| && routes[j].matchType.Exact? ==> routes[i].matchType.Exact?)
    ensures forall j | 0 <= j < i && Matches(routes[j], request) ::
              |routes[j].path| < |routes[i].path|
              || (|routes[j].path| == |routes[i].path| && routes[j].matchType.Prefix? && routes[i].matchType.Exact?)
  {
    MatchRouteIsFirstBest(routes, request);
    i :| 0 <= i < |routes| && routes[i] == MatchRoute(routes, request).value && FirstBest(routes, request, i);
  }

  /** An exact match beats every prefix match. */
  lemma ExactMatchWins(routes: seq<RouteConfig>, request: seq<byte>, e: nat)
    requires e < |routes| && routes[e].matchType.Exact? && Matches(routes[e], request)
    ensures var r := MatchRoute(routes, request);
            r.Some? && r.value.matchType.Exact? && r.value.path == request
  {
    MatchRouteIsFirstBest(routes, request);
    var r := MatchRoute(routes, request).value;
    assert !Above(routes[e], r);
  }

  /** Matching routes that neither beats the other apply to the same path in the same way. */
  lemma EqualKeysAgree(a: RouteConfig, b: RouteConfig, request: seq<byte>)
    requires Matches(a, request) && Matches(b, request) && !Above(a, b) && !Above(b, a)
    ensures a.path == b.path && a.matchType == b.matchType
  {
    assert a.path == request[..|a.path|] && b.path == request[..|b.path|];
  }

  ghost predicate DistinctRoutes(routes: seq<RouteConfig>) {
    forall i, j | 0 <= i < j < |routes| ::
      routes[i].path != routes[j].path || routes[i].matchType != routes[j].matchType
  }

  /** Reordering the table never changes which path and match type is chosen,
      and if no two routes share both it never changes the route. */
  lemma OrderIndependent(routes: seq<RouteConfig>, routes': seq<RouteConfig>, request: seq<byte>)
    requires multiset(routes) == multiset(routes')
    ensures var r, r' := MatchRoute(routes, request), MatchRoute(routes', request);
      && r.Some? == r'.Some?
      && (r.Some? ==> r.value.path == r'.value.path && r.value.matchType == r'.value.matchType)
      && (DistinctRoutes(routes) ==> r == r')
  {
    var r, r' := MatchRoute(routes, request), MatchRoute(routes', request);
    MatchRouteIsFirstBest(routes, request);
    MatchRouteIsFirstBest(routes', request);
    forall x ensures x in routes <==> x in routes' {
      assert x in multiset(routes) <==> x in multiset(routes');
    }
    if r.Some? {
      var i :| 0 <= i < |routes| && routes[i] == r.value && FirstBest(routes, request, i);
      assert r.value in routes';
    }
    if r'.Some? {
      var i :| 0 <= i < |routes'| && routes'[i] == r'.value && FirstBest(routes', request, i);
      assert r'.value in routes;
    }
    if r.Some? && r'.Some? {
      var i :| 0 <= i < |routes| && routes[i] == r'.value;
      var j :| 0 <= j < |routes'| && routes'[j] == r.value;
      EqualKeysAgree(r.value, r'.value, request);
    }
  }
}
