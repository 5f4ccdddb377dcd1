/** The route map's city markers and figures. Every route contributes two
    endpoints, its origin and its destination; endpoints are grouped by the
    key `city + "-" + country`, each group becoming one marker that keeps the
    first endpoint's city, country and airport code and counts the endpoints
    in the group. Coordinates, arcs, colours and line widths are not part of
    this model. */
module InteractiveRouteMap {
  import opened Options
  import opened Schema
  import opened PopularRoutesMap

  datatype Endpoint = Endpoint(city: string, country: string, code: string)

  function OriginOf(r: PopularRoute): Endpoint {
    Endpoint(r.originCity, r.originCountry, r.originAirportCode)
  }

  function DestinationOf(r: PopularRoute): Endpoint {
    Endpoint(r.destinationCity, r.destinationCountry, r.destinationAirportCode)
  }

  /** The endpoints in visiting order: each route's origin, then its
      destination. */
  function Endpoints(routes: seq<PopularRoute>): (es: seq<Endpoint>)
    ensures |es| == 2 * |routes|
  {
    if routes == [] then []
    else
      var last := routes[|routes| - 1];
      Endpoints(routes[..|routes| - 1]) + [OriginOf(last), DestinationOf(last)]
  }

  /** The grouping key. */
  function Key(e: Endpoint): string {
    e.city + "-" + e.country
  }

  /** How many endpoints carry key `k`. */
  function Count(es: seq<Endpoint>, k: string): (n: nat)
    ensures n <= |es|
    ensures n == 0 <==> forall e :: e in es ==> Key(e) != k
  {
    if es == [] then 0
    else
      var init := es[..|es| - 1];
      assert forall e :: e in es <==> e in init || e == es[|es| - 1];
      Count(init, k) + (if Key(es[|es| - 1]) == k then 1 else 0)
  }

  /** The first endpoint carrying key `k`, if any. */
  function FirstWith(es: seq<Endpoint>, k: string): (first: Option<Endpoint>)
    ensures first.Some? <==> Count(es, k) > 0
    ensures first.Some? ==> exists i :: 0 <= i < |es| && es[i] == first.value && Key(es[i]) == k
                                        && forall j :: 0 <= j < i ==> Key(es[j]) != k
  {
    if es == [] then None
    else
      var init := es[..|es| - 1];
      var earlier := FirstWith(init, k);
      if earlier.Some? then
        var i :| 0 <= i < |init| && init[i] == earlier.value && Key(init[i]) == k
                 && forall j :: 0 <= j < i ==> Key(init[j]) != k;
        assert forall j :: 0 <= j <= i ==> es[j] == init[j];
        earlier
      else if Key(es[|es| - 1]) == k then
        assert forall j :: 0 <= j < |init| ==> Key(es[j]) != k by {
          forall j | 0 <= j < |init| ensures Key(es[j]) != k {
            assert es[j] == init[j] && init[j] in init;
          }
        }
        Some(es[|es| - 1])
      else None
  }

  /** The position of the first endpoint carrying key `k`, or `|es|` when
      none does. */
  function FirstIndex(es: seq<Endpoint>, k: string): (n: nat)
    ensures n <= |es|
    ensures n < |es| ==> Key(es[n]) == k
    ensures forall j :: 0 <= j < n && j < |es| ==> Key(es[j]) != k
  {
    if es == [] then 0
    else
      var init := es[..|es| - 1];
      var n := FirstIndex(init, k);
      assert forall j :: 0 <= j < |init| ==> init[j] == es[j];
      if n < |init| then n else if Key(es[|es| - 1]) == k then |init| else |es|
  }

  /** The keys in order of first appearance, each once. */
  function FirstKeys(es: seq<Endpoint>): (keys: seq<string>)
    ensures forall k :: k in keys <==> FirstWith(es, k).Some?
    ensures forall i, j :: 0 <= i < j < |keys| ==> keys[i] != keys[j]
  {
    if es == [] then []
    else
      var keys := FirstKeys(es[..|es| - 1]);
      var k := Key(es[|es| - 1]);
      if k in keys then keys else keys + [k]
  }

  /** A key is listed exactly when some endpoint carries it. */
  lemma {:induction false} FirstKeysIndexed(es: seq<Endpoint>)
    ensures forall k :: k in FirstKeys(es) <==> FirstIndex(es, k) < |es|
  {
    if es != [] {
      var init := es[..|es| - 1];
      FirstKeysIndexed(init);
      assert FirstKeys(es) == if Key(es[|es| - 1]) in FirstKeys(init) then FirstKeys(init)
                              else FirstKeys(init) + [Key(es[|es| - 1])];
    }
  }

  /** The keys come in the order of their first endpoints: of two listed keys
      the earlier one has the earlier first endpoint. */
  lemma {:induction false} FirstKeysInOrder(es: seq<Endpoint>)
    ensures forall i, j :: 0 <= i < j < |FirstKeys(es)| ==>
      FirstIndex(es, FirstKeys(es)[i]) < FirstIndex(es, FirstKeys(es)[j])
  {
    if es != [] {
      var init := es[..|es| - 1];
      var e := es[|es| - 1];
      var keys := FirstKeys(init);
      FirstKeysInOrder(init);
      FirstKeysIndexed(init);
      assert FirstKeys(es) == if Key(e) in keys then keys else keys + [Key(e)];
      forall i | 0 <= i < |keys| ensures FirstIndex(es, keys[i]) == FirstIndex(init, keys[i]) < |init| {
        assert keys[i] in keys;
      }
    }
  }

  datatype Marker = Marker(city: string, country: string, code: string, routeCount: nat)

  /** The marker of key `k`: the first endpoint's names and code, and the
      number of endpoints with that key. */
  function MarkerFor(es: seq<Endpoint>, k: string): Marker
    requires FirstWith(es, k).Some?
  {
    var e := FirstWith(es, k).value;
    Marker(e.city, e.country, e.code, Count(es, k))
  }

  /** Visiting one more endpoint: its key's count grows by one, its key's
      first endpoint is set if it had none, and a new key is appended. */
  lemma VisitedOne(es: seq<Endpoint>, e: Endpoint, k: string)
    ensures Count(es + [e], k) == Count(es, k) + (if Key(e) == k then 1 else 0)
    ensures FirstWith(es + [e], k) ==
      if FirstWith(es, k).Some? then FirstWith(es, k) else if Key(e) == k then Some(e) else None
    ensures FirstKeys(es + [e]) == if Key(e) in FirstKeys(es) then FirstKeys(es) else FirstKeys(es) + [Key(e)]
  {
    assert (es + [e])[..|es|] == es;
  }

  /** The map `cityMarkers` fills, endpoint by endpoint: a new key gets a
      marker with count 1 from its endpoint, a known key has its count raised
      by one. */
  function Tally(es: seq<Endpoint>): (cities: map<string, Marker>)
    ensures |cities| <= |es|
    ensures es != [] ==> Key(es[|es| - 1]) in cities
  {
    if es == [] then map[]
    else
      var cities := Tally(es[..|es| - 1]);
      var e := es[|es| - 1];
      var k := Key(e);
      if k in cities then cities[k := cities[k].(routeCount := cities[k].routeCount + 1)]
      else cities[k := Marker(e.city, e.country, e.code, 1)]
  }

  /** The map holds exactly the keys that occur, each with its marker: the
      first endpoint's names and code, and the number of endpoints with the key. */
  lemma {:induction false} TallyAt(es: seq<Endpoint>, k: string)
    ensures k in Tally(es) <==> k in FirstKeys(es)
    ensures k in Tally(es) ==> FirstWith(es, k).Some? && Tally(es)[k] == MarkerFor(es, k)
  {
    if es != [] {
      var init := es[..|es| - 1];
      var e := es[|es| - 1];
      assert es == init + [e];
      TallyAt(init, k);
      TallyAt(init, Key(e));
      VisitedOne(init, e, k);
    }
  }

  /** One endpoint's visit, as the loop body does it. */
  method Visit(ghost es: seq<Endpoint>, keys: seq<string>, cities: map<string, Marker>, e: Endpoint)
    returns (keys': seq<string>, cities': map<string, Marker>)
    requires keys == FirstKeys(es) && cities == Tally(es)
    ensures keys' == FirstKeys(es + [e]) && cities' == Tally(es + [e])
  {
    var k := Key(e);
    assert (es + [e])[..|es|] == es;
    TallyAt(es, k);
    VisitedOne(es, e, k);
    if k !in cities {
      cities' := cities[k := Marker(e.city, e.country, e.code, 1)];
      keys' := keys + [k];
    } else {
      var m := cities[k];
      cities' := cities[k := m.(routeCount := m.routeCount + 1)];
      keys' := keys;
    }
  }

  /** The endpoints of one more route are its origin and its destination. */
  lemma EndpointsSnoc(routes: seq<PopularRoute>, i: nat)
    requires i < |routes|
    ensures Endpoints(routes[..i + 1]) == Endpoints(routes[..i]) + [OriginOf(routes[i])] + [DestinationOf(routes[i])]
  {
    assert routes[..i + 1][..i] == routes[..i];
  }

  /** `Array.from(cities.values())`: the markers in key insertion order. */
  function MarkersOf(keys: seq<string>, cities: map<string, Marker>): (markers: seq<Marker>)
    requires forall k :: k in keys ==> k in cities
    ensures |markers| == |keys|
    ensures forall i :: 0 <= i < |keys| ==> markers[i] == cities[keys[i]]
  {
    seq(|keys|, j requires 0 <= j < |keys| => cities[keys[j]])
  }

  /** `cityMarkers`: one marker per key, in first-appearance order, each
      counting the route endpoints with its key and named after the first. */
  method CityMarkers(routes: seq<PopularRoute>) returns (markers: seq<Marker>)
    ensures |markers| == |FirstKeys(Endpoints(routes))|
    ensures forall i :: 0 <= i < |markers| ==>
      markers[i] == MarkerFor(Endpoints(routes), FirstKeys(Endpoints(routes))[i])
  {
    var cities: map<string, Marker> := map[];
    var keys: seq<string> := [];
    var i := 0;
    while i < |routes|
      invariant 0 <= i <= |routes|
      invariant keys == FirstKeys(Endpoints(routes[..i])) && cities == Tally(Endpoints(routes[..i]))
    {
      ghost var seen := Endpoints(routes[..i]);
      keys, cities := Visit(seen, keys, cities, OriginOf(routes[i]));
      keys, cities := Visit(seen + [OriginOf(routes[i])], keys, cities, DestinationOf(routes[i]));
      EndpointsSnoc(routes, i);
      i := i + 1;
    }
    assert routes[..i] == routes;
    ghost var es := Endpoints(routes);
    forall k | k in keys ensures k in cities && FirstWith(es, k).Some? && cities[k] == MarkerFor(es, k) {
      TallyAt(es, k);
    }
    markers := MarkersOf(keys, cities);
  }

  // ------------------------------------------------------------ marker totals

  function TotalCount(markers: seq<Marker>): nat {
    if markers == [] then 0 else TotalCount(markers[..|markers| - 1]) + markers[|markers| - 1].routeCount
  }

  /** The counts of the given keys, added up. */
  function SumCounts(keys: seq<string>, es: seq<Endpoint>): nat {
    if keys == [] then 0 else SumCounts(keys[..|keys| - 1], es) + Count(es, keys[|keys| - 1])
  }

  /** One more endpoint raises the sum over distinct keys by one exactly when
      its key is among them. */
  lemma {:induction false} SumCountsSnoc(keys: seq<string>, es: seq<Endpoint>, e: Endpoint)
    requires forall i, j :: 0 <= i < j < |keys| ==> keys[i] != keys[j]
    ensures SumCounts(keys, es + [e]) == SumCounts(keys, es) + (if Key(e) in keys then 1 else 0)
  {
    var es' := es + [e];
    assert es'[..|es'| - 1] == es;
    if keys != [] {
      var init := keys[..|keys| - 1];
      var last := keys[|keys| - 1];
      assert forall i, j :: 0 <= i < j < |init| ==> init[i] != init[j] by {
        forall i, j | 0 <= i < j < |init| ensures init[i] != init[j] {
          assert init[i] == keys[i] && init[j] == keys[j];
        }
      }
      SumCountsSnoc(init, es, e);
      assert Key(e) in keys <==> Key(e) in init || Key(e) == last;
      assert last !in init by {
        forall i | 0 <= i < |init| ensures init[i] != last {
          assert init[i] == keys[i];
        }
      }
    }
  }

  /** The counts over all keys add up to the number of endpoints. */
  lemma {:induction false} SumCountsAll(es: seq<Endpoint>)
    ensures SumCounts(FirstKeys(es), es) == |es|
  {
    if es != [] {
      var init := es[..|es| - 1];
      var e := es[|es| - 1];
      assert es == init + [e];
      SumCountsAll(init);
      var keys := FirstKeys(init);
      SumCountsSnoc(keys, init, e);
      if Key(e) !in keys {
        var keys' := keys + [Key(e)];
        assert keys'[..|keys'| - 1] == keys;
        assert Count(init, Key(e)) == 0;
      }
    }
  }

  /** The markers' route counts add up to twice the number of routes: every
      route is counted once at each end. */
  lemma MarkerCountsTotal(routes: seq<PopularRoute>, markers: seq<Marker>)
    requires |markers| == |FirstKeys(Endpoints(routes))|
    requires forall i :: 0 <= i < |markers| ==>
      markers[i] == MarkerFor(Endpoints(routes), FirstKeys(Endpoints(routes))[i])
    ensures TotalCount(markers) == 2 * |routes|
  {
    var es := Endpoints(routes);
    TotalIsSum(markers, FirstKeys(es), es);
    SumCountsAll(es);
  }

  lemma {:induction false} TotalIsSum(markers: seq<Marker>, keys: seq<string>, es: seq<Endpoint>)
    requires |markers| == |keys|
    requires forall i :: 0 <= i < |keys| ==> FirstWith(es, keys[i]).Some? && markers[i] == MarkerFor(es, keys[i])
    ensures TotalCount(markers) == SumCounts(keys, es)
  {
    if keys != [] {
      var n := |keys| - 1;
      assert forall i :: 0 <= i < n ==> markers[..n][i] == markers[i] && keys[..n][i] == keys[i];
      TotalIsSum(markers[..n], keys[..n], es);
    }
  }

  /** Two different places can share a key: "A-B" in "C" and "A" in "B-C"
      both give "A-B-C", so their endpoints land on one marker. */
  lemma KeysCanCollide()
    ensures Key(Endpoint("A-B", "C", "X")) == Key(Endpoint("A", "B-C", "Y"))
  {
  }

  // ------------------------------------------------------------ radius and figures

  /** `Math.min(3 + routeCount * 0.5, 8)`. */
  function Radius(routeCount: int): (r: real)
    ensures r <= 8.0
    ensures routeCount >= 0 ==> r >= 3.0
    ensures r == 8.0 <==> routeCount >= 10
  {
    var grown := 3.0 + routeCount as real * 0.5;
    if grown < 8.0 then grown else 8.0
  }

  /** More routes never give a smaller marker. */
  lemma RadiusMonotone(a: int, b: int)
    requires a <= b
    ensures Radius(a) <= Radius(b)
  {
  }

  /** The "connected countries" figure: distinct origin countries plus
      distinct destination countries. */
  function ConnectedCountries(routes: seq<PopularRoute>): (n: nat)
    ensures n == |OriginCountries(routes) + DestinationCountries(routes)|
               + |OriginCountries(routes) * DestinationCountries(routes)|
    ensures |routes| > 0 ==> n >= 2
  {
    UnionSize(OriginCountries(routes), DestinationCountries(routes));
    assert |routes| > 0 ==>
      routes[0].originCountry in OriginCountries(routes) && routes[0].destinationCountry in DestinationCountries(routes);
    |OriginCountries(routes)| + |DestinationCountries(routes)|
  }

  /** The two sets' sizes add up to the union's size plus the overlap's. */
  lemma {:induction false} UnionSize(a: set<string>, b: set<string>)
    ensures |a + b| + |a * b| == |a| + |b|
    decreases |a|
  {
    if a != {} {
      var x :| x in a;
      var a' := a - {x};
      UnionSize(a', b);
      if x in b {
        assert a + b == a' + b;
        assert a * b == (a' * b) + {x};
      } else {
        assert a + b == (a' + b) + {x};
        assert a * b == a' * b;
      }
    } else {
      assert a + b == b;
      assert a * b == {};
    }
  }

  /** The figure is a sum, not the number of distinct countries: it counts a
      country that is both an origin and a destination twice, so it equals
      the number of distinct countries exactly when no country is both. */
  lemma ConnectedCountriesVsDistinct(routes: seq<PopularRoute>)
    ensures ConnectedCountries(routes) >= |OriginCountries(routes) + DestinationCountries(routes)|
    ensures ConnectedCountries(routes) == |OriginCountries(routes) + DestinationCountries(routes)|
        <==> OriginCountries(routes) * DestinationCountries(routes) == {}
  {
    UnionSize(OriginCountries(routes), DestinationCountries(routes));
  }

  datatype MapFigures = MapFigures(routeCount: nat, lowestPrice: real, highestFlights: int, connected: nat)

  /** What the component shows: the empty state, or the markers and the
      figures. */
  datatype RouteMapView =
    | NoRouteData
    | RouteMap(markers: seq<Marker>, figures: MapFigures)

  method ShowRouteMap(routes: seq<PopularRoute>) returns (v: RouteMapView)
    ensures v.NoRouteData? <==> |routes| == 0
    ensures v.RouteMap? ==> TotalCount(v.markers) == 2 * |routes|
    ensures v.RouteMap? ==> |v.markers| == |FirstKeys(Endpoints(routes))|
    ensures v.RouteMap? ==> forall i :: 0 <= i < |v.markers| ==>
      v.markers[i] == MarkerFor(Endpoints(routes), FirstKeys(Endpoints(routes))[i])
    ensures v.RouteMap? ==> v.figures == MapFigures(|routes|, LowestMinPrice(routes),
      HighestFlightCount(routes), ConnectedCountries(routes))
  {
    if |routes| == 0 {
      return NoRouteData;
    }
    var markers := CityMarkers(routes);
    MarkerCountsTotal(routes, markers);
    v := RouteMap(markers, MapFigures(|routes|, LowestMinPrice(routes),
      HighestFlightCount(routes), ConnectedCountries(routes)));
  }
}
