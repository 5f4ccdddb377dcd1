/** `getPopularRoutes`: the stored routes, each joined with its origin and its
    destination airport, busiest first. The route's prices, flight count and
    update time are the stored summary values; nothing is recomputed from the
    flights table. */
module PopularRoutes {
  import opened Options
  import opened Tables
  import opened Schema
  import opened Sorting
  import opened Sequences

  /** Both endpoint ids resolve, so the inner joins keep the route. */
  predicate Joinable(db: Database, rt: Route) {
    FindAirport(db.airports, rt.originAirportId).Some?
    && FindAirport(db.airports, rt.destinationAirportId).Some?
  }

  /** The SELECT list for one route and its two airports. */
  function RouteRow(rt: Route, o: Airport, d: Airport): PopularRoute {
    PopularRoute(
      rt.id,
      o.code, o.name, o.city, o.country, o.latitude, o.longitude,
      d.code, d.name, d.city, d.country, d.latitude, d.longitude,
      rt.minPrice, rt.maxPrice, rt.flightCount, rt.lastUpdated)
  }

  /** `routes r JOIN airports o ON r.origin_airport_id = o.id JOIN airports d
      ON r.destination_airport_id = d.id` for one route. */
  function JoinRoute(db: Database, rt: Route): (row: Option<PopularRoute>)
    ensures row.Some? <==> Joinable(db, rt)
  {
    var o := FindAirport(db.airports, rt.originAirportId);
    var d := FindAirport(db.airports, rt.destinationAirportId);
    if o.Some? && d.Some? then Some(RouteRow(rt, o.value, d.value)) else None
  }

  /** The join over all routes, in storage order. */
  function JoinRoutes(db: Database, routes: seq<Route>): (rows: seq<PopularRoute>)
    ensures |rows| <= |routes|
    ensures forall r :: r in rows <==> exists rt :: rt in routes && JoinRoute(db, rt) == Some(r)
  {
    if routes == [] then []
    else
      var rest := JoinRoutes(db, routes[1..]);
      assert forall rt :: rt in routes <==> rt == routes[0] || rt in routes[1..];
      var head := JoinRoute(db, routes[0]);
      if head.Some? then [head.value] + rest else rest
  }

  function FlightCountKey(r: PopularRoute): real { r.flightCount as real }

  /** The handler: the joined rows ordered by flight count, highest first.
      Rows with equal counts come in no particular order; this is one
      admissible order. */
  function GetPopularRoutes(db: Database): (rows: seq<PopularRoute>)
    ensures multiset(rows) == multiset(JoinRoutes(db, db.routes))
    ensures forall i, j :: 0 <= i < j < |rows| ==> rows[i].flightCount >= rows[j].flightCount
  {
    var rows := Sort(JoinRoutes(db, db.routes), FlightCountKey, Descending);
    assert forall i, j :: 0 <= i < j < |rows| ==> FlightCountKey(rows[i]) >= FlightCountKey(rows[j]);
    rows
  }

  // ------------------------------------------------------------ properties

  /** One row per joinable route: the join is as long as the joinable part of
      the table. */
  lemma {:induction false} JoinRoutesLength(db: Database, routes: seq<Route>)
    ensures |JoinRoutes(db, routes)| == |Filter(routes, rt => Joinable(db, rt))|
  {
    if routes != [] {
      JoinRoutesLength(db, routes[1..]);
    }
  }

  /** The output has one row per route whose two airports exist. */
  lemma PopularRoutesLength(db: Database)
    ensures |GetPopularRoutes(db)| == |Filter(db.routes, rt => Joinable(db, rt))|
  {
    var rows := GetPopularRoutes(db);
    assert |rows| == |multiset(rows)|;
    JoinRoutesLength(db, db.routes);
  }

  /** When every route resolves, every route gives a row. */
  lemma AllRoutesListed(db: Database)
    requires forall rt :: rt in db.routes ==> Joinable(db, rt)
    ensures |GetPopularRoutes(db)| == |db.routes|
  {
    PopularRoutesLength(db);
    FilterAll(db.routes, rt => Joinable(db, rt));
  }

  /** No stored routes, no popular routes. */
  lemma NoRoutesNoRows(db: Database)
    requires db.routes == []
    ensures GetPopularRoutes(db) == []
  {
    var rows := GetPopularRoutes(db);
    assert |rows| == |multiset(rows)|;
  }

  /** Each row pairs a stored route with the airport of its origin id and the
      airport of its destination id, and carries the route's stored figures. */
  lemma RowFields(db: Database, r: PopularRoute)
    requires r in GetPopularRoutes(db)
    ensures exists rt, o, d ::
      && rt in db.routes && o in db.airports && d in db.airports
      && o.id == rt.originAirportId && d.id == rt.destinationAirportId
      && r.id == rt.id && r.minPrice == rt.minPrice && r.maxPrice == rt.maxPrice
      && r.flightCount == rt.flightCount && r.lastUpdated == rt.lastUpdated
      && r.originAirportCode == o.code && r.originAirportName == o.name && r.originCity == o.city
      && r.originCountry == o.country && r.originLatitude == o.latitude && r.originLongitude == o.longitude
      && r.destinationAirportCode == d.code && r.destinationAirportName == d.name
      && r.destinationCity == d.city && r.destinationCountry == d.country
      && r.destinationLatitude == d.latitude && r.destinationLongitude == d.longitude
  {
    assert multiset(GetPopularRoutes(db))[r] > 0;
    assert r in JoinRoutes(db, db.routes);
    var rt :| rt in db.routes && JoinRoute(db, rt) == Some(r);
    var o := FindAirport(db.airports, rt.originAirportId).value;
    var d := FindAirport(db.airports, rt.destinationAirportId).value;
    assert r == RouteRow(rt, o, d);
  }

  /** Every joinable route is listed. */
  lemma JoinableListed(db: Database, rt: Route)
    requires rt in db.routes && Joinable(db, rt)
    ensures JoinRoute(db, rt).value in GetPopularRoutes(db)
  {
    var r := JoinRoute(db, rt).value;
    assert r in JoinRoutes(db, db.routes);
    assert multiset(JoinRoutes(db, db.routes))[r] > 0;
  }

  /** The figures are the stored ones: the flights table has no influence. */
  lemma IndependentOfFlights(db: Database, flights: seq<Flight>)
    ensures GetPopularRoutes(db.(flights := flights)) == GetPopularRoutes(db)
  {
    var other := db.(flights := flights);
    JoinRoutesSameTables(db, other, db.routes);
  }

  lemma {:induction false} JoinRoutesSameTables(db: Database, other: Database, routes: seq<Route>)
    requires other.airports == db.airports
    ensures JoinRoutes(other, routes) == JoinRoutes(db, routes)
  {
    if routes != [] {
      JoinRoutesSameTables(db, other, routes[1..]);
    }
  }
}
