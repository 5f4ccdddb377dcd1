/** `getAirportsByCity`: the stored airports whose city equals the argument,
    compared exactly (no case folding, no trimming), with every column passed
    through. */
module AirportsByCity {
  import opened Tables
  import opened Sequences

  function GetAirportsByCity(airports: seq<Airport>, city: string): (result: seq<Airport>)
    ensures forall a :: a in result <==> a in airports && a.city == city
    ensures forall a :: multiset(result)[a] == if a.city == city then multiset(airports)[a] else 0
  {
    Filter(airports, (a: Airport) => a.city == city)
  }

  /** A city no airport has gives the empty list. */
  lemma UnknownCityEmpty(airports: seq<Airport>, city: string)
    requires forall a :: a in airports ==> a.city != city
    ensures GetAirportsByCity(airports, city) == []
  {
  }

  /** Letter case matters: airports in "Paris" are not found under "paris". */
  lemma CaseSensitive(airports: seq<Airport>)
    requires forall a :: a in airports ==> a.city == "Paris"
    ensures GetAirportsByCity(airports, "paris") == []
  {
    UnknownCityEmpty(airports, "paris");
  }

  /** Same-named cities in different countries are all returned. */
  lemma AllCountries(airports: seq<Airport>, a: Airport, b: Airport)
    requires a in airports && b in airports && a.city == b.city && a.country != b.country
    ensures a in GetAirportsByCity(airports, a.city) && b in GetAirportsByCity(airports, a.city)
    ensures |GetAirportsByCity(airports, a.city)| >= 2
  {
    var result := GetAirportsByCity(airports, a.city);
    assert multiset(result)[a] > 0 && multiset(result)[b] > 0;
    assert a != b;
    assert multiset{a, b} <= multiset(result);
    assert |multiset(result)| >= |multiset{a, b}|;
  }

  /** The rows are the stored rows: every field of a result appears in the
      table unchanged. */
  lemma FieldsPassedThrough(airports: seq<Airport>, city: string, r: Airport)
    requires r in GetAirportsByCity(airports, city)
    ensures exists i :: 0 <= i < |airports| && airports[i] == r && r.city == city
  {
    var i :| 0 <= i < |airports| && airports[i] == r;
  }
}
