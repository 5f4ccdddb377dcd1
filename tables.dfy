/** The stored rows the handlers read: airlines, airports, pre-aggregated
    routes and flights, with the columns of the database schema. Timestamps are
    minutes since the epoch; `numeric` and `real` columns are exact `real`s.
    Each table is a sequence in storage order. `id` is every table's primary
    key, so a lookup by id finds at most one row in a well-formed database. */
module Tables {
  import opened Options

  datatype Airline = Airline(
    id: int, code: string, name: string, logoUrl: Option<string>, createdAt: int)

  datatype Airport = Airport(
    id: int, code: string, name: string, city: string, country: string,
    latitude: real, longitude: real, createdAt: int)

  /** The per-pair summary, maintained apart from the flights table. */
  datatype Route = Route(
    id: int, originAirportId: int, destinationAirportId: int,
    minPrice: real, maxPrice: real, flightCount: int, lastUpdated: int, createdAt: int)

  datatype Flight = Flight(
    id: int, airlineId: int, flightNumber: string,
    originAirportId: int, destinationAirportId: int,
    departureTime: int, arrivalTime: int, price: real, currency: string,
    availableSeats: int, stops: int, durationMinutes: int, createdAt: int)

  datatype Database = Database(
    airlines: seq<Airline>, airports: seq<Airport>, routes: seq<Route>, flights: seq<Flight>)

  predicate UniqueAirlineIds(airlines: seq<Airline>) {
    forall i, j :: 0 <= i < j < |airlines| ==> airlines[i].id != airlines[j].id
  }

  predicate UniqueAirportIds(airports: seq<Airport>) {
    forall i, j :: 0 <= i < j < |airports| ==> airports[i].id != airports[j].id
  }

  predicate UniqueFlightIds(flights: seq<Flight>) {
    forall i, j :: 0 <= i < j < |flights| ==> flights[i].id != flights[j].id
  }

  /** The join partner of `JOIN airlines a ON f.airline_id = a.id`: the row with
      that id, and under unique ids the only one. */
  function FindAirline(airlines: seq<Airline>, id: int): (r: Option<Airline>)
    ensures r.Some? ==> r.value in airlines && r.value.id == id
    ensures r.None? <==> forall a :: a in airlines ==> a.id != id
    ensures UniqueAirlineIds(airlines) ==> forall i :: 0 <= i < |airlines| && airlines[i].id == id ==> r == Some(airlines[i])
  {
    if airlines == [] then None
    else if airlines[0].id == id then Some(airlines[0])
    else
      var r := FindAirline(airlines[1..], id);
      assert forall a :: a in airlines ==> a == airlines[0] || a in airlines[1..];
      assert UniqueAirlineIds(airlines) ==> UniqueAirlineIds(airlines[1..]);
      assert forall i :: 1 <= i < |airlines| ==> airlines[i] == airlines[1..][i - 1];
      r
  }

  /** The join partner of `JOIN airports x ON ... = x.id`. */
  function FindAirport(airports: seq<Airport>, id: int): (r: Option<Airport>)
    ensures r.Some? ==> r.value in airports && r.value.id == id
    ensures r.None? <==> forall a :: a in airports ==> a.id != id
    ensures UniqueAirportIds(airports) ==> forall i :: 0 <= i < |airports| && airports[i].id == id ==> r == Some(airports[i])
  {
    if airports == [] then None
    else if airports[0].id == id then Some(airports[0])
    else
      var r := FindAirport(airports[1..], id);
      assert forall a :: a in airports ==> a == airports[0] || a in airports[1..];
      assert UniqueAirportIds(airports) ==> UniqueAirportIds(airports[1..]);
      assert forall i :: 1 <= i < |airports| ==> airports[i] == airports[1..][i - 1];
      r
  }
}
