/** The read-only selections of CabController: the route search with its
    price filter, the featured cabs of the home page, the similar offers on a
    price's detail page, and the cabs listed on the index page. Each is a pure
    function of the tables; a table scan without `OrderBy` returns its rows in
    ascending key order (`Rows`). */
module CabQueries {
  import opened Common
  import opened Enums
  import opened Models

  // ---------------------------------------------------------------------------
  // SearchResults
  // ---------------------------------------------------------------------------

  /** The route condition of the search: active, and its two cities carry the
      requested names. Whether those cities are active is not looked at. */
  predicate RouteMatches(cities: map<int, City>, route: Route, fromName: string, toName: string) {
    && route.isActive
    && route.fromCityId in cities && cities[route.fromCityId].name == fromName
    && route.toCityId in cities && cities[route.toCityId].name == toName
  }

  /** The price condition of the search: on route `routeId` for the requested
      journey type, available and active, its cab Available and active, and its
      cab, route and the route's cities present (the query's inner joins). */
  predicate Offered(cabs: map<int, Cab>, routes: map<int, Route>, cities: map<int, City>,
                    price: CabRoutePrice, routeId: int, journeyType: JourneyType) {
    && price.routeId == routeId
    && price.journeyType == journeyType
    && price.isAvailable
    && price.isActive
    && PriceJoins(cabs, routes, cities, price)
    && cabs[price.cabId].status == Available
    && cabs[price.cabId].isActive
  }

  datatype SearchOutcome = NoRoute | Found(route: Route, results: seq<CabRoutePrice>)

  /** The route lookup of SearchResults: the active route with the smallest
      key whose cities carry the two names, or none when there is no such route. */
  function FindRoute(cities: map<int, City>, routes: map<int, Route>, fromName: string, toName: string): (r: Option<Route>)
    ensures r.None? <==> forall k :: k in routes ==> !RouteMatches(cities, routes[k], fromName, toName)
    ensures r.Some? ==>
      exists k :: k in routes && routes[k] == r.value && RouteMatches(cities, r.value, fromName, toName) &&
        forall j :: j in routes && j < k ==> !RouteMatches(cities, routes[j], fromName, toName)
  {
    FirstByKey(routes, (x: Route) => RouteMatches(cities, x, fromName, toName))
  }

  /** The price filter of SearchResults: the stored prices offered on route
      `routeId` for the journey type, all of them, each row once. */
  function OfferedPrices(cabs: map<int, Cab>, routes: map<int, Route>, cities: map<int, City>,
                         prices: map<int, CabRoutePrice>, routeId: int, journeyType: JourneyType): (r: seq<CabRoutePrice>)
    ensures forall i :: 0 <= i < |r| ==>
      r[i] in prices.Values && Offered(cabs, routes, cities, r[i], routeId, journeyType)
    ensures forall k :: k in prices && Offered(cabs, routes, cities, prices[k], routeId, journeyType) ==> prices[k] in r
    ensures multiset(r) <= multiset(Rows(prices))
  {
    Where(prices, (x: CabRoutePrice) => Offered(cabs, routes, cities, x, routeId, journeyType))
  }

  /** SearchResults: the first route (in key order) that joins the two named
      cities, then every price offered on it for the journey type, each row
      once. There is no result when no active route joins the named cities. */
  function SearchResults(cities: map<int, City>, routes: map<int, Route>, prices: map<int, CabRoutePrice>,
                         cabs: map<int, Cab>, request: SearchRequest): (r: SearchOutcome)
    ensures r.NoRoute? <==> forall k :: k in routes ==> !RouteMatches(cities, routes[k], request.fromCity, request.toCity)
    ensures r.Found? ==>
      exists k :: k in routes && routes[k] == r.route &&
        RouteMatches(cities, r.route, request.fromCity, request.toCity) &&
        forall j :: j in routes && j < k ==> !RouteMatches(cities, routes[j], request.fromCity, request.toCity)
    ensures r.Found? ==> forall i :: 0 <= i < |r.results| ==>
      r.results[i] in prices.Values &&
      Offered(cabs, routes, cities, r.results[i], r.route.routeId, request.journeyType)
    ensures r.Found? ==> forall k :: k in prices && Offered(cabs, routes, cities, prices[k], r.route.routeId, request.journeyType) ==>
      prices[k] in r.results
    ensures r.Found? ==> multiset(r.results) <= multiset(Rows(prices))
  {
    match FindRoute(cities, routes, request.fromCity, request.toCity)
    case None => NoRoute
    case Some(route) => Found(route, OfferedPrices(cabs, routes, cities, prices, route.routeId, request.journeyType))
  }

  // ---------------------------------------------------------------------------
  // GetFeaturedCabsPartial
  // ---------------------------------------------------------------------------

  /** The featured condition: the cab is active and Available and at least one
      of its prices is available and active. */
  predicate Featurable(prices: map<int, CabRoutePrice>, c: Cab) {
    && c.isActive
    && c.status == Available
    && exists k :: k in prices && prices[k].cabId == c.cabId && prices[k].isAvailable && prices[k].isActive
  }

  /** Seating capacities do not increase along `s`. */
  predicate CapacityDescending(s: seq<Cab>) {
    forall i, j :: 0 <= i < j < |s| ==> s[i].seatingCapacity >= s[j].seatingCapacity
  }

  /** Putting a cab in front of a capacity-ordered list whose head is no larger keeps it ordered. */
  lemma ConsDescending(c: Cab, s: seq<Cab>)
    requires CapacityDescending(s) && (s == [] || s[0].seatingCapacity <= c.seatingCapacity)
    ensures CapacityDescending([c] + s)
  {
    var r := [c] + s;
    forall i, j | 0 <= i < j < |r| ensures r[i].seatingCapacity >= r[j].seatingCapacity {
      assert r[j] == s[j - 1];
      if i > 0 {
        assert r[i] == s[i - 1];
      }
    }
  }

  /** Inserts `c` before the first cab with no greater capacity. */
  function InsertByCapacity(c: Cab, s: seq<Cab>): (r: seq<Cab>)
    ensures |r| == |s| + 1
  {
    if s == [] || c.seatingCapacity >= s[0].seatingCapacity then [c] + s
    else [s[0]] + InsertByCapacity(c, s[1..])
  }

  /** Inserting into a capacity-ordered list keeps it ordered; the first cab is
      the inserted one or the old first. */
  lemma {:induction false} InsertKeepsOrder(c: Cab, s: seq<Cab>)
    requires CapacityDescending(s)
    ensures CapacityDescending(InsertByCapacity(c, s))
    ensures InsertByCapacity(c, s)[0] == c || (s != [] && InsertByCapacity(c, s)[0] == s[0])
  {
    if s == [] || c.seatingCapacity >= s[0].seatingCapacity {
      ConsDescending(c, s);
    } else {
      var tail := s[1..];
      assert CapacityDescending(tail);
      InsertKeepsOrder(c, tail);
      var rest := InsertByCapacity(c, tail);
      assert tail != [] ==> s[0].seatingCapacity >= tail[0].seatingCapacity;
      ConsDescending(s[0], rest);
    }
  }

  /** Inserting adds exactly the one cab. */
  lemma {:induction false} InsertKeepsCabs(c: Cab, s: seq<Cab>)
    ensures multiset(InsertByCapacity(c, s)) == multiset(s) + multiset{c}
  {
    if s != [] && c.seatingCapacity < s[0].seatingCapacity {
      var tail := s[1..];
      assert s == [s[0]] + tail;
      InsertKeepsCabs(c, tail);
    }
  }

  /** `OrderByDescending(c => c.SeatingCapacity)`, as an insertion sort. */
  function SortByCapacityDescending(s: seq<Cab>): (r: seq<Cab>)
    ensures |r| == |s|
  {
    if s == [] then [] else InsertByCapacity(s[0], SortByCapacityDescending(s[1..]))
  }

  /** Sorting gives the same cabs, by capacity, largest first. */
  lemma {:induction false} SortOrdersByCapacity(s: seq<Cab>)
    ensures CapacityDescending(SortByCapacityDescending(s))
    ensures multiset(SortByCapacityDescending(s)) == multiset(s)
  {
    if s != [] {
      var tail := s[1..];
      assert s == [s[0]] + tail;
      SortOrdersByCapacity(tail);
      InsertKeepsOrder(s[0], SortByCapacityDescending(tail));
      InsertKeepsCabs(s[0], SortByCapacityDescending(tail));
    }
  }

  /** Sorting keeps exactly the same cabs. */
  lemma SortKeepsMembers(s: seq<Cab>)
    ensures forall x :: x in SortByCapacityDescending(s) <==> x in s
  {
    SortOrdersByCapacity(s);
    var r := SortByCapacityDescending(s);
    forall x ensures x in r <==> x in s {
      assert x in r <==> x in multiset(r);
      assert x in s <==> x in multiset(s);
    }
  }

  /** The first `n` cabs of a capacity-ordered list: at most `n` of its cabs,
      still ordered, and every cab they leave out comes after `n` cabs whose
      capacity is at least its own. */
  lemma TopOfSorted(s: seq<Cab>, n: nat)
    requires CapacityDescending(s)
    ensures forall i :: 0 <= i < |Take(s, n)| ==> Take(s, n)[i] in s
    ensures CapacityDescending(Take(s, n))
    ensures multiset(Take(s, n)) <= multiset(s)
    ensures forall x :: x in s && x !in Take(s, n) ==>
      |Take(s, n)| == n && forall i :: 0 <= i < n ==> Take(s, n)[i].seatingCapacity >= x.seatingCapacity
  {
    var r := Take(s, n);
    TakeKeepsAtMost(s, n);
    assert forall i :: 0 <= i < |r| ==> r[i] == s[i];
    forall x | x in s && x !in r
      ensures |r| == n && forall i :: 0 <= i < n ==> r[i].seatingCapacity >= x.seatingCapacity
    {
      var j :| 0 <= j < |s| && s[j] == x;
      assert j >= |r|;
    }
  }

  /** `OrderByDescending(c => c.SeatingCapacity).Take(n)`: `n` of the cabs, or
      all of them when there are fewer, largest first; a cab is left out only
      when `n` cabs of at least its capacity were kept. */
  function TopByCapacity(s: seq<Cab>, n: nat): (r: seq<Cab>)
    ensures |r| == if |s| <= n then |s| else n
    ensures forall i :: 0 <= i < |r| ==> r[i] in s
    ensures CapacityDescending(r)
    ensures multiset(r) <= multiset(s)
    ensures forall x :: x in s && x !in r ==>
      |r| == n && forall i :: 0 <= i < |r| ==> r[i].seatingCapacity >= x.seatingCapacity
  {
    var sorted := SortByCapacityDescending(s);
    SortOrdersByCapacity(s);
    SortKeepsMembers(s);
    TopOfSorted(sorted, n);
    Take(sorted, n)
  }

  /** Every cab of `r` is a cab of the table satisfying `p`. */
  ghost predicate KeptFrom(m: map<int, Cab>, p: Cab -> bool, r: seq<Cab>) {
    forall x :: x in r ==> p(x) && x in m.Values
  }

  /** A cab of the table satisfying `p` is missing from `r` only when `r` has
      `n` cabs, each of at least its capacity. */
  ghost predicate LeftOutAfter(m: map<int, Cab>, p: Cab -> bool, r: seq<Cab>, n: nat) {
    forall k :: k in m && p(m[k]) && m[k] !in r ==>
      |r| == n && forall i :: 0 <= i < |r| ==> r[i].seatingCapacity >= m[k].seatingCapacity
  }

  /** A cab-table query with a `Where(p)`, then `OrderByDescending(c =>
      c.SeatingCapacity).Take(n)`: at most `n` cabs of the table satisfying `p`,
      each row once, largest first; such a cab is left out only when `n` cabs of
      at least its capacity were kept (`TopWhereCount` gives the exact count). */
  function TopWhereByCapacity(m: map<int, Cab>, p: Cab -> bool, n: nat): (r: seq<Cab>)
    ensures |r| <= n
    ensures KeptFrom(m, p, r)
    ensures CapacityDescending(r)
    ensures multiset(r) <= multiset(Rows(m))
    ensures LeftOutAfter(m, p, r, n)
  {
    var w := Where(m, p);
    var r := TopByCapacity(w, n);
    KeptAreMembers(m, p, w, r);
    LeftOutOfKept(m, p, w, r, n);
    r
  }

  /** The top-n query keeps `n` cabs, or every row satisfying `p` when there
      are fewer. */
  lemma TopWhereCount(m: map<int, Cab>, p: Cab -> bool, n: nat)
    ensures var r := TopWhereByCapacity(m, p, n);
      |r| == if |Where(m, p)| <= n then |Where(m, p)| else n
  {
    assert TopWhereByCapacity(m, p, n) == TopByCapacity(Where(m, p), n);
  }

  /** Cabs taken from a list of table records satisfying `p`, each at most as
      often as the list has it, are table records satisfying `p`, each at most
      as often as the table has it. */
  lemma KeptAreMembers(m: map<int, Cab>, p: Cab -> bool, w: seq<Cab>, r: seq<Cab>)
    requires forall i :: 0 <= i < |w| ==> p(w[i]) && w[i] in m.Values
    requires forall i :: 0 <= i < |r| ==> r[i] in w
    requires multiset(w) <= multiset(Rows(m)) && multiset(r) <= multiset(w)
    ensures KeptFrom(m, p, r)
    ensures multiset(r) <= multiset(Rows(m))
  {
    forall x | x in r ensures p(x) && x in m.Values {
      var i :| 0 <= i < |r| && r[i] == x;
      var j :| 0 <= j < |w| && w[j] == x;
    }
  }

  /** When `w` holds every record satisfying `p`, and a cab of `w` is left out
      of `r` only after `n` cabs of at least its capacity, the same holds of
      every record of the table satisfying `p`. */
  lemma LeftOutOfKept(m: map<int, Cab>, p: Cab -> bool, w: seq<Cab>, r: seq<Cab>, n: nat)
    requires forall k :: k in m && p(m[k]) ==> m[k] in w
    requires forall x :: x in w && x !in r ==>
      |r| == n && forall i :: 0 <= i < |r| ==> r[i].seatingCapacity >= x.seatingCapacity
    ensures LeftOutAfter(m, p, r, n)
  {
  }

  /** A featurable cab of the table is missing from `r` only when `r` holds four
      cabs, each of at least its capacity. */
  ghost predicate FeaturedLeftOut(cabs: map<int, Cab>, prices: map<int, CabRoutePrice>, r: seq<Cab>) {
    forall k :: k in cabs && Featurable(prices, cabs[k]) && cabs[k] !in r ==>
      |r| == 4 && forall i :: 0 <= i < |r| ==> r[i].seatingCapacity >= cabs[k].seatingCapacity
  }

  /** GetFeaturedCabsPartial: at most four cabs, each featurable and each row
      once, largest capacity first; a featurable cab is left out only when four cabs of at
      least its capacity were shown instead. */
  function FeaturedCabs(cabs: map<int, Cab>, prices: map<int, CabRoutePrice>): (r: seq<Cab>)
    ensures |r| <= 4
    ensures forall c :: c in r ==> c in cabs.Values && Featurable(prices, c)
    ensures CapacityDescending(r)
    ensures multiset(r) <= multiset(Rows(cabs))
    ensures FeaturedLeftOut(cabs, prices, r)
  {
    var featurable := (c: Cab) => Featurable(prices, c);
    var r := TopWhereByCapacity(cabs, featurable, 4);
    FeaturedOfTop(cabs, prices, featurable, r);
    r
  }

  /** What the top-four query keeps and leaves out under a condition that is
      the featured condition, stated in terms of the featured condition. */
  lemma FeaturedOfTop(cabs: map<int, Cab>, prices: map<int, CabRoutePrice>, p: Cab -> bool, r: seq<Cab>)
    requires forall c :: p(c) == Featurable(prices, c)
    requires KeptFrom(cabs, p, r) && LeftOutAfter(cabs, p, r, 4)
    ensures forall c :: c in r ==> c in cabs.Values && Featurable(prices, c)
    ensures FeaturedLeftOut(cabs, prices, r)
  {
  }

  // ---------------------------------------------------------------------------
  // CabDetails
  // ---------------------------------------------------------------------------

  /** The similar-offer condition: another price on the viewed price's route,
      available and active, whose cab is present and Available and whose route
      is present (the query's inner joins). The cab's own active flag is not
      looked at. */
  predicate Similar(cabs: map<int, Cab>, routes: map<int, Route>, viewed: CabRoutePrice, id: int, p: CabRoutePrice) {
    && p.routeId == viewed.routeId
    && p.cabRoutePriceId != id
    && p.isAvailable
    && p.isActive
    && p.cabId in cabs
    && p.routeId in routes
    && cabs[p.cabId].status == Available
  }

  datatype DetailsOutcome = DetailsNotFound | Details(price: CabRoutePrice, similar: seq<CabRoutePrice>)

  /** CabDetails: the price under `id`, found only when its cab, route and the
      route's cities are present, and at most three similar offers on the same
      route, each row once and never the viewed price itself; fewer than three
      are shown only when there are no more. */
  function CabDetails(cabs: map<int, Cab>, routes: map<int, Route>, cities: map<int, City>,
                      prices: map<int, CabRoutePrice>, id: int): (r: DetailsOutcome)
    ensures r.DetailsNotFound? <==> id !in prices || !PriceJoins(cabs, routes, cities, prices[id])
    ensures r.Details? ==> r.price == prices[id]
    ensures r.Details? ==> |r.similar| <= 3
    ensures r.Details? ==> forall i :: 0 <= i < |r.similar| ==>
      r.similar[i].cabRoutePriceId != id &&
      r.similar[i] in prices.Values && Similar(cabs, routes, r.price, id, r.similar[i])
    ensures r.Details? && |r.similar| < 3 ==>
      forall k :: k in prices && Similar(cabs, routes, r.price, id, prices[k]) ==> prices[k] in r.similar
    ensures r.Details? ==> multiset(r.similar) <= multiset(Rows(prices))
  {
    if id !in prices || !PriceJoins(cabs, routes, cities, prices[id]) then DetailsNotFound
    else
      var viewed := prices[id];
      Details(viewed, WhereTake(prices, (p: CabRoutePrice) => Similar(cabs, routes, viewed, id, p), 3))
  }

  // ---------------------------------------------------------------------------
  // Index
  // ---------------------------------------------------------------------------

  /** The index page's condition: an active, Available cab. */
  predicate Listable(c: Cab) {
    c.isActive && c.status == Available
  }

  /** Index: the first six active, Available cabs in table order, each row
      once; fewer than six are shown only when there are no more. */
  function IndexCabs(cabs: map<int, Cab>): (r: seq<Cab>)
    ensures |r| <= 6
    ensures forall i :: 0 <= i < |r| ==> r[i] in cabs.Values && Listable(r[i])
    ensures |r| < 6 ==> forall k :: k in cabs && Listable(cabs[k]) ==> cabs[k] in r
    ensures multiset(r) <= multiset(Rows(cabs))
  {
    WhereTake(cabs, Listable, 6)
  }

  // ---------------------------------------------------------------------------
  // Each row once
  // ---------------------------------------------------------------------------

  /** Over a cab table whose cabs carry their own keys, the home page features
      no cab twice. */
  lemma FeaturedCabsOnce(cabs: map<int, Cab>, prices: map<int, CabRoutePrice>)
    requires forall k :: k in cabs ==> cabs[k].cabId == k
    ensures NoRepeats(FeaturedCabs(cabs, prices))
  {
    var key := (c: Cab) => c.cabId;
    assert forall k :: k in cabs ==> key(cabs[k]) == k;
    ResultHasNoRepeats(cabs, key, FeaturedCabs(cabs, prices));
  }

  /** Over a cab table whose cabs carry their own keys, the index page lists no cab twice. */
  lemma IndexCabsOnce(cabs: map<int, Cab>)
    requires forall k :: k in cabs ==> cabs[k].cabId == k
    ensures NoRepeats(IndexCabs(cabs))
  {
    var key := (c: Cab) => c.cabId;
    assert forall k :: k in cabs ==> key(cabs[k]) == k;
    ResultHasNoRepeats(cabs, key, IndexCabs(cabs));
  }

  /** Over a price table whose prices carry their own keys, the search lists no price twice. */
  lemma SearchResultsOnce(cities: map<int, City>, routes: map<int, Route>, prices: map<int, CabRoutePrice>,
                          cabs: map<int, Cab>, request: SearchRequest)
    requires forall k :: k in prices ==> prices[k].cabRoutePriceId == k
    ensures SearchResults(cities, routes, prices, cabs, request).Found? ==>
      NoRepeats(SearchResults(cities, routes, prices, cabs, request).results)
  {
    var r := SearchResults(cities, routes, prices, cabs, request);
    if r.Found? {
      var key := (p: CabRoutePrice) => p.cabRoutePriceId;
      assert forall k :: k in prices ==> key(prices[k]) == k;
      ResultHasNoRepeats(prices, key, r.results);
    }
  }

  /** Over a price table whose prices carry their own keys, the detail page
      suggests no price twice. */
  lemma CabDetailsOnce(cabs: map<int, Cab>, routes: map<int, Route>, cities: map<int, City>,
                       prices: map<int, CabRoutePrice>, id: int)
    requires forall k :: k in prices ==> prices[k].cabRoutePriceId == k
    ensures CabDetails(cabs, routes, cities, prices, id).Details? ==>
      NoRepeats(CabDetails(cabs, routes, cities, prices, id).similar)
  {
    var r := CabDetails(cabs, routes, cities, prices, id);
    if r.Details? {
      var key := (p: CabRoutePrice) => p.cabRoutePriceId;
      assert forall k :: k in prices ==> key(prices[k]) == k;
      ResultHasNoRepeats(prices, key, r.similar);
    }
  }
}
