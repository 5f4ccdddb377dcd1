/** The popular-routes panel: the routes busiest first, the first ten of them
    listed, a note counting the rest, and four figures (route count, lowest
    minimum price, highest flight count, number of origin countries). */
module PopularRoutesMap {
  import opened Options
  import opened Schema
  import opened Sorting
  import opened PopularRoutes

  /** How many routes the list shows at most. */
  const ListLength := 10

  /** `[...routes].sort((a, b) => b.flight_count - a.flight_count)`: a sorted
      copy. The caller's sequence is a value and stays as it was. */
  function SortedRoutes(routes: seq<PopularRoute>): (sorted: seq<PopularRoute>)
    ensures multiset(sorted) == multiset(routes)
    ensures |sorted| == |routes|
    ensures forall i, j :: 0 <= i < j < |sorted| ==> sorted[i].flightCount >= sorted[j].flightCount
  {
    var sorted := Sort(routes, FlightCountKey, Descending);
    assert forall i, j :: 0 <= i < j < |sorted| ==> FlightCountKey(sorted[i]) >= FlightCountKey(sorted[j]);
    sorted
  }

  /** `sortedRoutes.slice(0, 10)`: the busiest routes, at most ten, and none
      of the routes left out is busier than a route shown. */
  function ListedRoutes(routes: seq<PopularRoute>): (listed: seq<PopularRoute>)
    ensures |listed| == if |routes| < ListLength then |routes| else ListLength
    ensures listed == SortedRoutes(routes)[..|listed|]
    ensures forall i, j :: 0 <= i < |listed| <= j < |routes| ==>
      listed[i].flightCount >= SortedRoutes(routes)[j].flightCount
  {
    var sorted := SortedRoutes(routes);
    if |sorted| < ListLength then sorted else sorted[..ListLength]
  }

  /** A route busier than some listed route is listed itself. */
  lemma BusierRoutesListed(routes: seq<PopularRoute>, shown: PopularRoute, r: PopularRoute)
    requires shown in ListedRoutes(routes) && r in routes
    requires r.flightCount > shown.flightCount
    ensures r in ListedRoutes(routes)
  {
    var sorted := SortedRoutes(routes);
    var listed := ListedRoutes(routes);
    assert r in multiset(sorted);
    var j :| 0 <= j < |sorted| && sorted[j] == r;
    var i :| 0 <= i < |listed| && listed[i] == shown;
    assert j < |listed|;
    assert listed[j] == r;
  }

  /** The "... and N other routes" note: present exactly when there are more
      than ten routes, counting those not listed. */
  function OthersNote(routes: seq<PopularRoute>): (note: Option<int>)
    ensures note.Some? <==> |routes| > ListLength
    ensures note.Some? ==> note.value == |routes| - ListLength
    ensures note.Some? ==> |ListedRoutes(routes)| + note.value == |routes|
    ensures note.None? ==> |ListedRoutes(routes)| == |routes|
  {
    if |routes| > ListLength then Some(|routes| - ListLength) else None
  }

  /** `Math.min(...routes.map(r => r.min_price))` over a non-empty list. */
  function LowestMinPrice(routes: seq<PopularRoute>): (m: real)
    requires |routes| > 0
    ensures forall r :: r in routes ==> m <= r.minPrice
    ensures exists r :: r in routes && m == r.minPrice
  {
    if |routes| == 1 then routes[0].minPrice
    else
      var rest := LowestMinPrice(routes[1..]);
      assert forall r :: r in routes ==> r == routes[0] || r in routes[1..];
      if routes[0].minPrice <= rest then routes[0].minPrice else rest
  }

  /** `Math.max(...routes.map(r => r.flight_count))` over a non-empty list. */
  function HighestFlightCount(routes: seq<PopularRoute>): (m: int)
    requires |routes| > 0
    ensures forall r :: r in routes ==> r.flightCount <= m
    ensures exists r :: r in routes && m == r.flightCount
  {
    if |routes| == 1 then routes[0].flightCount
    else
      var rest := HighestFlightCount(routes[1..]);
      assert forall r :: r in routes ==> r == routes[0] || r in routes[1..];
      if routes[0].flightCount >= rest then routes[0].flightCount else rest
  }

  function OriginCountries(routes: seq<PopularRoute>): set<string> {
    set r | r in routes :: r.originCountry
  }

  function DestinationCountries(routes: seq<PopularRoute>): set<string> {
    set r | r in routes :: r.destinationCountry
  }

  /** The countries-served figure: how many distinct origin countries. */
  function CountriesServed(routes: seq<PopularRoute>): (n: nat)
    ensures n <= |routes|
    ensures |routes| > 0 ==> n >= 1
  {
    OriginCountriesBound(routes);
    assert |routes| > 0 ==> routes[0].originCountry in OriginCountries(routes);
    |OriginCountries(routes)|
  }

  /** There are no more distinct origin countries than routes. */
  lemma {:induction false} OriginCountriesBound(routes: seq<PopularRoute>)
    ensures |OriginCountries(routes)| <= |routes|
  {
    if routes != [] {
      OriginCountriesBound(routes[1..]);
      assert OriginCountries(routes) == OriginCountries(routes[1..]) + {routes[0].originCountry} by {
        forall c | c in OriginCountries(routes)
          ensures c in OriginCountries(routes[1..]) + {routes[0].originCountry}
        {
          var r :| r in routes && r.originCountry == c;
          if r != routes[0] {
            assert r in routes[1..];
          }
        }
      }
    }
  }

  datatype Figures = Figures(routeCount: nat, lowestPrice: real, highestFlights: int, countries: nat)

  /** What the panel shows: the empty state, or the list, the note and the
      figures. */
  datatype PanelView =
    | NoRoutes
    | Panel(listed: seq<PopularRoute>, others: Option<int>, figures: Figures)

  function ShowPopularRoutes(routes: seq<PopularRoute>): (v: PanelView)
    ensures v.NoRoutes? <==> |routes| == 0
    ensures v.Panel? ==> v.listed == ListedRoutes(routes) && v.others == OthersNote(routes)
    ensures v.Panel? ==> v.figures.routeCount == |routes|
    ensures v.Panel? ==> v.figures.lowestPrice == LowestMinPrice(routes)
    ensures v.Panel? ==> v.figures.highestFlights == HighestFlightCount(routes)
    ensures v.Panel? ==> v.figures.countries == CountriesServed(routes)
  {
    if |routes| == 0 then NoRoutes
    else
      Panel(ListedRoutes(routes), OthersNote(routes),
        Figures(|routes|, LowestMinPrice(routes), HighestFlightCount(routes), CountriesServed(routes)))
  }

  /** The busiest route heads the list. */
  lemma BusiestFirst(routes: seq<PopularRoute>)
    requires |routes| > 0
    ensures ListedRoutes(routes)[0].flightCount == HighestFlightCount(routes)
  {
    var sorted := SortedRoutes(routes);
    assert ListedRoutes(routes)[0] == sorted[0];
    HeadIsHighest(routes, sorted);
  }

  lemma HeadIsHighest(routes: seq<PopularRoute>, sorted: seq<PopularRoute>)
    requires |routes| > 0 && multiset(sorted) == multiset(routes)
    requires forall j :: 0 <= j < |sorted| ==> sorted[0].flightCount >= sorted[j].flightCount
    ensures |sorted| > 0 && sorted[0].flightCount == HighestFlightCount(routes)
  {
    var m := HighestFlightCount(routes);
    var r :| r in routes && m == r.flightCount;
    assert r in multiset(sorted);
    var j :| 0 <= j < |sorted| && sorted[j] == r;
    assert sorted[0] in multiset(routes);
  }
}
