/** The flight search handler. A request selects the joined flight rows that
    pass the base constraints (both cities, the departure day, enough seats)
    and every filter the request carries, and orders them by one of six sort
    keys. The handler builds its WHERE clause one condition at a time; here
    that clause is a list of `Condition`s, built by `BuildWhere`, and the
    declarative meaning of a request is `Admits`. */
module SearchFlights {
  import opened Options
  import opened Text
  import opened Tables
  import opened Schema
  import opened Sorting
  import opened Sequences

  const MinutesPerDay := 1440

  // ------------------------------------------------------------ clock times

  /** `str.split(sep)`: the pieces between separators, at least one. */
  function Split(s: string, sep: char): (parts: seq<string>)
    ensures |parts| >= 1
    ensures forall i :: 0 <= i < |parts| ==> sep !in parts[i]
  {
    if s == [] then [""]
    else
      var rest := Split(s[1..], sep);
      if s[0] == sep then [""] + rest else [[s[0]] + rest[0]] + rest[1..]
  }

  /** `parts.join(sep)` */
  function Join(parts: seq<string>, sep: char): string
    requires |parts| >= 1
  {
    if |parts| == 1 then parts[0] else parts[0] + [sep] + Join(parts[1..], sep)
  }

  /** Splitting loses nothing: joining the pieces gives the string back. */
  lemma {:induction false} JoinSplit(s: string, sep: char)
    ensures Join(Split(s, sep), sep) == s
  {
    if s != [] {
      var rest := Split(s[1..], sep);
      JoinSplit(s[1..], sep);
      if s[0] != sep && |rest| > 1 {
        assert Split(s, sep)[1..] == rest[1..];
      }
    }
  }

  /** Splitting a string with exactly one separator gives its two sides. */
  lemma {:induction false} SplitAtSeparator(a: string, b: string, sep: char)
    requires sep !in a && sep !in b
    ensures Split(a + [sep] + b, sep) == [a, b]
  {
    if a == [] {
      assert [sep] + b == [sep] + b;
      SplitNone(b, sep);
      assert (a + [sep] + b)[1..] == b;
    } else {
      SplitAtSeparator(a[1..], b, sep);
      assert (a + [sep] + b)[1..] == a[1..] + [sep] + b;
      assert [a[0]] + a[1..] == a;
    }
  }

  lemma {:induction false} SplitNone(s: string, sep: char)
    requires sep !in s
    ensures Split(s, sep) == [s]
  {
    if s != [] {
      SplitNone(s[1..], sep);
      assert [s[0]] + s[1..] == s;
    }
  }

  /** `timeToMinutes`: hours * 60 + minutes of the first two ':'-separated
      pieces, each read with `Number`; no range or shape check. None stands
      for NaN (a piece that is not a number, or no ':' at all). */
  function TimeToMinutes(s: string): (r: Option<int>)
    ensures r.Some? ==> ':' in s
  {
    var parts := Split(s, ':');
    var hours := JsNumber(parts[0]);
    var minutes := if |parts| > 1 then JsNumber(parts[1]) else None;
    if hours.Some? && minutes.Some? then
      SeparatorBetweenPieces(s, ':');
      Some(hours.value * 60 + minutes.value)
    else None
  }

  /** More than one piece means the separator occurs. */
  lemma {:induction false} SeparatorBetweenPieces(s: string, sep: char)
    requires |Split(s, sep)| > 1
    ensures sep in s
  {
    if s[0] != sep {
      SeparatorBetweenPieces(s[1..], sep);
    }
  }

  /** Without a ':' the minutes are undefined and the result is NaN. */
  lemma TimeToMinutesNoColon(s: string)
    requires ':' !in s
    ensures TimeToMinutes(s).None?
  {
    SplitNone(s, ':');
  }

  /** "HH:MM" with digit runs HH and MM gives HH * 60 + MM, whatever their
      range: "25:99" is 1599. */
  lemma TimeToMinutesDigits(hh: string, mm: string)
    requires hh != [] && mm != [] && AllDigits(hh) && AllDigits(mm)
    ensures TimeToMinutes(hh + ":" + mm) == Some(DigitsValue(hh) * 60 + DigitsValue(mm))
  {
    assert ':' !in hh && ':' !in mm by {
      assert forall i :: 0 <= i < |hh| ==> IsDigit(hh[i]);
      assert forall i :: 0 <= i < |mm| ==> IsDigit(mm[i]);
    }
    var s := hh + ":" + mm;
    assert s == hh + [':'] + mm;
    SplitAtSeparator(hh, mm, ':');
    var hours, minutes := JsNumber(hh), JsNumber(mm);
    assert hours == Some(DigitsValue(hh)) && minutes == Some(DigitsValue(mm));
  }

  /** Clock time of a timestamp, `EXTRACT(HOUR) * 60 + EXTRACT(MINUTE)`. */
  function ClockMinutes(t: int): (m: int)
    ensures 0 <= m < MinutesPerDay
    ensures (t - m) % MinutesPerDay == 0
  {
    t % MinutesPerDay
  }

  /** `clock >= bound` as the database compares it: a NaN bound orders above
      every number. */
  predicate AtLeastBound(clock: int, bound: Option<int>) {
    bound.Some? && clock >= bound.value
  }

  /** `clock <= bound`, with NaN above every number. */
  predicate AtMostBound(clock: int, bound: Option<int>) {
    bound.None? || clock <= bound.value
  }

  // ------------------------------------------------------------ the request's meaning

  /** The mandatory part of the WHERE clause. The day window is closed at both
      ends: a flight leaving exactly at the next midnight is in. */
  predicate BaseAdmits(input: SearchInput, dayStart: int, r: FlightSearchResult) {
    && r.originCity == input.originCity
    && r.destinationCity == input.destinationCity
    && dayStart <= r.departureTime <= dayStart + MinutesPerDay
    && r.availableSeats >= input.passengers
  }

  predicate MinPriceOk(f: Filters, r: FlightSearchResult) {
    f.minPrice.Some? ==> r.price >= f.minPrice.value
  }

  predicate MaxPriceOk(f: Filters, r: FlightSearchResult) {
    f.maxPrice.Some? ==> r.price <= f.maxPrice.value
  }

  predicate MaxStopsOk(f: Filters, r: FlightSearchResult) {
    f.maxStops.Some? ==> r.stops <= f.maxStops.value
  }

  /** Only a non-empty list restricts the airline. */
  predicate AirlinesOk(f: Filters, r: FlightSearchResult) {
    f.airlines.Some? && |f.airlines.value| > 0 ==> r.airlineCode in f.airlines.value
  }

  predicate MaxDurationOk(f: Filters, r: FlightSearchResult) {
    f.maxDurationHours.Some? ==> r.durationMinutes as real <= f.maxDurationHours.value * 60.0
  }

  /** Both bounds of the window, ANDed: a window ending before it starts
      admits nothing. */
  predicate TimeRangeOk(f: Filters, r: FlightSearchResult) {
    f.departureTimeRange.Some? ==>
      var clock := ClockMinutes(r.departureTime);
      AtLeastBound(clock, TimeToMinutes(f.departureTimeRange.value.start))
      && AtMostBound(clock, TimeToMinutes(f.departureTimeRange.value.end))
  }

  /** Every filter present in the request holds of the row. */
  predicate FiltersAdmit(filters: Option<Filters>, r: FlightSearchResult) {
    var f := filters.GetOr(NoFilters);
    MinPriceOk(f, r) && MaxPriceOk(f, r) && MaxStopsOk(f, r) && AirlinesOk(f, r)
    && MaxDurationOk(f, r) && TimeRangeOk(f, r)
  }

  predicate Admits(input: SearchInput, dayStart: int, r: FlightSearchResult) {
    BaseAdmits(input, dayStart, r) && FiltersAdmit(input.filters, r)
  }

  // ------------------------------------------------------------ the WHERE clause

  datatype Condition =
    | OriginCityIs(city: string)
    | DestinationCityIs(city: string)
    | DepartsAtOrAfter(t: int)
    | DepartsAtOrBefore(t: int)
    | SeatsAtLeast(n: int)
    | PriceAtLeast(p: real)
    | PriceAtMost(p: real)
    | StopsAtMost(n: int)
    | AirlineAmong(codes: seq<string>)
    | DurationAtMost(minutes: real)
    | ClockAtLeast(bound: Option<int>)
    | ClockAtMost(bound: Option<int>)

  predicate Holds(c: Condition, r: FlightSearchResult) {
    match c
    case OriginCityIs(city) => r.originCity == city
    case DestinationCityIs(city) => r.destinationCity == city
    case DepartsAtOrAfter(t) => r.departureTime >= t
    case DepartsAtOrBefore(t) => r.departureTime <= t
    case SeatsAtLeast(n) => r.availableSeats >= n
    case PriceAtLeast(p) => r.price >= p
    case PriceAtMost(p) => r.price <= p
    case StopsAtMost(n) => r.stops <= n
    case AirlineAmong(codes) => r.airlineCode in codes
    case DurationAtMost(m) => r.durationMinutes as real <= m
    case ClockAtLeast(b) => AtLeastBound(ClockMinutes(r.departureTime), b)
    case ClockAtMost(b) => AtMostBound(ClockMinutes(r.departureTime), b)
  }

  /** A row passes a WHERE clause when every condition in it holds. */
  predicate AllHold(conditions: seq<Condition>, r: FlightSearchResult) {
    if conditions == [] then true
    else AllHold(conditions[..|conditions| - 1], r) && Holds(conditions[|conditions| - 1], r)
  }

  /** A clause made of two parts demands what both parts demand. */
  lemma {:induction false} AllHoldConcat(a: seq<Condition>, b: seq<Condition>, r: FlightSearchResult)
    ensures AllHold(a + b, r) <==> AllHold(a, r) && AllHold(b, r)
    decreases |b|
  {
    if b == [] {
      assert a + b == a;
    } else {
      var last := |b| - 1;
      assert (a + b)[..|a + b| - 1] == a + b[..last];
      AllHoldConcat(a, b[..last], r);
    }
  }

  /** The conditions the handler always pushes. */
  function BaseClause(input: SearchInput, dayStart: int): seq<Condition> {
    [OriginCityIs(input.originCity),
     DestinationCityIs(input.destinationCity),
     DepartsAtOrAfter(dayStart),
     DepartsAtOrBefore(dayStart + MinutesPerDay),
     SeatsAtLeast(input.passengers)]
  }

  /** The conditions one filter contributes: none when it is absent. */
  function MinPriceClause(f: Filters): seq<Condition> {
    if f.minPrice.Some? then [PriceAtLeast(f.minPrice.value)] else []
  }

  function MaxPriceClause(f: Filters): seq<Condition> {
    if f.maxPrice.Some? then [PriceAtMost(f.maxPrice.value)] else []
  }

  function MaxStopsClause(f: Filters): seq<Condition> {
    if f.maxStops.Some? then [StopsAtMost(f.maxStops.value)] else []
  }

  function AirlinesClause(f: Filters): seq<Condition> {
    if f.airlines.Some? && |f.airlines.value| > 0 then [AirlineAmong(f.airlines.value)] else []
  }

  function DurationClause(f: Filters): seq<Condition> {
    if f.maxDurationHours.Some? then [DurationAtMost(f.maxDurationHours.value * 60.0)] else []
  }

  function TimeRangeClause(f: Filters): seq<Condition> {
    if f.departureTimeRange.Some? then
      [ClockAtLeast(TimeToMinutes(f.departureTimeRange.value.start)),
       ClockAtMost(TimeToMinutes(f.departureTimeRange.value.end))]
    else []
  }

  /** The whole clause, parts in the handler's order. */
  function WhereClause(input: SearchInput, dayStart: int): seq<Condition> {
    var f := input.filters.GetOr(NoFilters);
    BaseClause(input, dayStart) + MinPriceClause(f) + MaxPriceClause(f) + MaxStopsClause(f)
    + AirlinesClause(f) + DurationClause(f) + TimeRangeClause(f)
  }

  lemma BaseClauseMeaning(input: SearchInput, dayStart: int, r: FlightSearchResult)
    ensures AllHold(BaseClause(input, dayStart), r) <==> BaseAdmits(input, dayStart, r)
  {
    var base := BaseClause(input, dayStart);
    assert AllHold(base, r) <==> AllHold(base[..4], r) && Holds(base[4], r);
    assert base[..4][..3] == base[..3];
    assert AllHold(base[..4], r) <==> AllHold(base[..3], r) && Holds(base[3], r);
    assert base[..3][..2] == base[..2];
    assert AllHold(base[..3], r) <==> AllHold(base[..2], r) && Holds(base[2], r);
    assert base[..2][..1] == base[..1];
    assert AllHold(base[..2], r) <==> AllHold(base[..1], r) && Holds(base[1], r);
    assert base[..1][..0] == [];
    assert AllHold(base[..1], r) <==> Holds(base[0], r);
  }

  lemma TimeRangeClauseMeaning(f: Filters, r: FlightSearchResult)
    ensures AllHold(TimeRangeClause(f), r) <==> TimeRangeOk(f, r)
  {
    var tr := TimeRangeClause(f);
    if f.departureTimeRange.Some? {
      assert AllHold(tr, r) <==> AllHold(tr[..1], r) && Holds(tr[1], r);
      assert tr[..1][..0] == [];
      assert AllHold(tr[..1], r) <==> Holds(tr[0], r);
    }
  }

  /** A one-condition clause holds exactly when its condition does. */
  lemma SingleHolds(c: Condition, r: FlightSearchResult)
    ensures AllHold([c], r) <==> Holds(c, r)
  {
    assert [c][..0] == [];
  }

  /** Each optional filter's clause holds exactly when the filter admits the row. */
  lemma FilterClausesMeaning(f: Filters, r: FlightSearchResult)
    ensures AllHold(MinPriceClause(f), r) <==> MinPriceOk(f, r)
    ensures AllHold(MaxPriceClause(f), r) <==> MaxPriceOk(f, r)
    ensures AllHold(MaxStopsClause(f), r) <==> MaxStopsOk(f, r)
    ensures AllHold(AirlinesClause(f), r) <==> AirlinesOk(f, r)
    ensures AllHold(DurationClause(f), r) <==> MaxDurationOk(f, r)
  {
    if f.minPrice.Some? { SingleHolds(PriceAtLeast(f.minPrice.value), r); }
    if f.maxPrice.Some? { SingleHolds(PriceAtMost(f.maxPrice.value), r); }
    if f.maxStops.Some? { SingleHolds(StopsAtMost(f.maxStops.value), r); }
    if f.airlines.Some? && |f.airlines.value| > 0 { SingleHolds(AirlineAmong(f.airlines.value), r); }
    if f.maxDurationHours.Some? { SingleHolds(DurationAtMost(f.maxDurationHours.value * 60.0), r); }
  }

  /** A clause of seven parts holds exactly when each part does. */
  lemma AllHoldParts(p0: seq<Condition>, p1: seq<Condition>, p2: seq<Condition>, p3: seq<Condition>,
                     p4: seq<Condition>, p5: seq<Condition>, p6: seq<Condition>, r: FlightSearchResult)
    ensures AllHold(p0 + p1 + p2 + p3 + p4 + p5 + p6, r)
        <==> AllHold(p0, r) && AllHold(p1, r) && AllHold(p2, r) && AllHold(p3, r)
             && AllHold(p4, r) && AllHold(p5, r) && AllHold(p6, r)
  {
    AllHoldConcat(p0, p1, r);
    AllHoldConcat(p0 + p1, p2, r);
    AllHoldConcat(p0 + p1 + p2, p3, r);
    AllHoldConcat(p0 + p1 + p2 + p3, p4, r);
    AllHoldConcat(p0 + p1 + p2 + p3 + p4, p5, r);
    AllHoldConcat(p0 + p1 + p2 + p3 + p4 + p5, p6, r);
  }

  /** The clause admits exactly the rows the request means. */
  lemma WhereClauseMeaning(input: SearchInput, dayStart: int, r: FlightSearchResult)
    ensures AllHold(WhereClause(input, dayStart), r) <==> Admits(input, dayStart, r)
  {
    var f := input.filters.GetOr(NoFilters);
    AllHoldParts(BaseClause(input, dayStart), MinPriceClause(f), MaxPriceClause(f), MaxStopsClause(f),
      AirlinesClause(f), DurationClause(f), TimeRangeClause(f), r);
    BaseClauseMeaning(input, dayStart, r);
    FilterClausesMeaning(f, r);
    TimeRangeClauseMeaning(f, r);
  }

  /** The same, for every row at once. */
  lemma WhereClauseAdmits(input: SearchInput, dayStart: int)
    ensures forall r :: AllHold(WhereClause(input, dayStart), r) <==> Admits(input, dayStart, r)
  {
    forall r ensures AllHold(WhereClause(input, dayStart), r) <==> Admits(input, dayStart, r) {
      WhereClauseMeaning(input, dayStart, r);
    }
  }

  /** Builds the WHERE clause: the base constraints, then one condition per
      filter present, in the handler's order. The clause admits exactly the
      rows the request means. */
  method BuildWhere(input: SearchInput, dayStart: int) returns (conditions: seq<Condition>)
    ensures forall r :: AllHold(conditions, r) <==> Admits(input, dayStart, r)
  {
    var f := input.filters.GetOr(NoFilters);
    conditions := [
      OriginCityIs(input.originCity),
      DestinationCityIs(input.destinationCity),
      DepartsAtOrAfter(dayStart),
      DepartsAtOrBefore(dayStart + MinutesPerDay),
      SeatsAtLeast(input.passengers)];
    assert conditions == BaseClause(input, dayStart);
    ghost var built := conditions;
    if f.minPrice.Some? {
      conditions := conditions + [PriceAtLeast(f.minPrice.value)];
    }
    assert conditions == built + MinPriceClause(f);
    built := conditions;
    if f.maxPrice.Some? {
      conditions := conditions + [PriceAtMost(f.maxPrice.value)];
    }
    assert conditions == built + MaxPriceClause(f);
    built := conditions;
    if f.maxStops.Some? {
      conditions := conditions + [StopsAtMost(f.maxStops.value)];
    }
    assert conditions == built + MaxStopsClause(f);
    built := conditions;
    if f.airlines.Some? && |f.airlines.value| > 0 {
      conditions := conditions + [AirlineAmong(f.airlines.value)];
    }
    assert conditions == built + AirlinesClause(f);
    built := conditions;
    if f.maxDurationHours.Some? {
      conditions := conditions + [DurationAtMost(f.maxDurationHours.value * 60.0)];
    }
    assert conditions == built + DurationClause(f);
    built := conditions;
    if f.departureTimeRange.Some? {
      var startMinutes := TimeToMinutes(f.departureTimeRange.value.start);
      var endMinutes := TimeToMinutes(f.departureTimeRange.value.end);
      conditions := conditions + [ClockAtLeast(startMinutes)];
      conditions := conditions + [ClockAtMost(endMinutes)];
    }
    assert conditions == built + TimeRangeClause(f);
    assert conditions == WhereClause(input, dayStart);
    WhereClauseAdmits(input, dayStart);
  }

  // ------------------------------------------------------------ ORDER BY

  datatype Column = Price | Duration | DepartureTime

  datatype Order = OrderBy(column: Column, direction: Direction)

  /** The order a sort key names. */
  function OrderOf(k: SortKey): Order {
    match k
    case PriceAsc => OrderBy(Price, Ascending)
    case PriceDesc => OrderBy(Price, Descending)
    case DurationAsc => OrderBy(Duration, Ascending)
    case DurationDesc => OrderBy(Duration, Descending)
    case DepartureTimeAsc => OrderBy(DepartureTime, Ascending)
    case DepartureTimeDesc => OrderBy(DepartureTime, Descending)
  }

  /** `getSortClause`: the order named by the key, and price ascending for an
      absent or unknown key. */
  function SortClause(sort: Option<string>): (o: Order)
    ensures sort.None? ==> o == OrderBy(Price, Ascending)
    ensures sort.Some? && SortKeyOf(sort.value).None? ==> o == OrderBy(Price, Ascending)
    ensures forall k :: sort == Some(SortKeyName(k)) ==> o == OrderOf(k)
  {
    if sort.None? then OrderBy(Price, Ascending)
    else match sort.value
      case "price_asc" => OrderBy(Price, Ascending)
      case "price_desc" => OrderBy(Price, Descending)
      case "duration_asc" => OrderBy(Duration, Ascending)
      case "duration_desc" => OrderBy(Duration, Descending)
      case "departure_time_asc" => OrderBy(DepartureTime, Ascending)
      case "departure_time_desc" => OrderBy(DepartureTime, Descending)
      case _ => OrderBy(Price, Ascending)
  }

  function PriceKey(r: FlightSearchResult): real { r.price }
  function DurationKey(r: FlightSearchResult): real { r.durationMinutes as real }
  function DepartureKey(r: FlightSearchResult): real { r.departureTime as real }

  function ColumnKey(c: Column): FlightSearchResult -> real {
    match c
    case Price => PriceKey
    case Duration => DurationKey
    case DepartureTime => DepartureKey
  }

  function RequestedOrder(input: SearchInput): Order {
    SortClause(if input.sort.Some? then Some(SortKeyName(input.sort.value)) else None)
  }

  // ------------------------------------------------------------ the joined rows

  /** The SELECT list for one flight joined with its airline and airports. */
  function ResultRow(f: Flight, a: Airline, o: Airport, d: Airport): FlightSearchResult {
    FlightSearchResult(
      f.id,
      a.code, a.name, a.logoUrl,
      f.flightNumber,
      o.code, o.name, o.city,
      d.code, d.name, d.city,
      f.departureTime, f.arrivalTime,
      f.price, f.currency,
      f.availableSeats, f.stops, f.durationMinutes)
  }

  /** The inner join of one flight: present when its airline and both
      airports exist. */
  function JoinFlight(db: Database, f: Flight): (row: Option<FlightSearchResult>)
    ensures row.Some? <==>
      && (exists a :: a in db.airlines && a.id == f.airlineId)
      && (exists o :: o in db.airports && o.id == f.originAirportId)
      && (exists d :: d in db.airports && d.id == f.destinationAirportId)
    ensures row.Some? ==> row.value.id == f.id
  {
    var a := FindAirline(db.airlines, f.airlineId);
    var o := FindAirport(db.airports, f.originAirportId);
    var d := FindAirport(db.airports, f.destinationAirportId);
    if a.Some? && o.Some? && d.Some? then Some(ResultRow(f, a.value, o.value, d.value)) else None
  }

  /** `flights ⋈ airlines ⋈ airports ⋈ airports`, one row per joinable flight. */
  function JoinFlights(db: Database, flights: seq<Flight>): (rows: seq<FlightSearchResult>)
    ensures |rows| <= |flights|
    ensures forall r :: r in rows <==> exists f :: f in flights && JoinFlight(db, f) == Some(r)
  {
    if flights == [] then []
    else
      var rest := JoinFlights(db, flights[1..]);
      assert forall f :: f in flights <==> f == flights[0] || f in flights[1..];
      var head := JoinFlight(db, flights[0]);
      if head.Some? then [head.value] + rest else rest
  }

  /** A joined row carries its flight's id. */
  lemma JoinedId(db: Database, f: Flight)
    requires JoinFlight(db, f).Some?
    ensures JoinFlight(db, f).value.id == f.id
  {
  }

  /** Unique ids stay unique in the tail, and the head's id is not among them. */
  lemma FlightIdsTail(flights: seq<Flight>)
    requires flights != [] && UniqueFlightIds(flights)
    ensures UniqueFlightIds(flights[1..])
    ensures forall f :: f in flights[1..] ==> f.id != flights[0].id
  {
    forall i, j | 0 <= i < j < |flights[1..]| ensures flights[1..][i].id != flights[1..][j].id {
      assert flights[1..][i] == flights[i + 1] && flights[1..][j] == flights[j + 1];
    }
    forall f | f in flights[1..] ensures f.id != flights[0].id {
      var k :| 0 <= k < |flights[1..]| && flights[1..][k] == f;
      assert flights[k + 1] == f;
    }
  }

  /** Each joined row carries its flight's id, so unique flight ids give
      distinct row ids. */
  lemma {:induction false} JoinFlightsDistinct(db: Database, flights: seq<Flight>)
    requires UniqueFlightIds(flights)
    ensures DistinctBy(JoinFlights(db, flights), RowId)
  {
    if flights != [] {
      FlightIdsTail(flights);
      JoinFlightsDistinct(db, flights[1..]);
      var rest := JoinFlights(db, flights[1..]);
      var head := JoinFlight(db, flights[0]);
      if head.Some? {
        JoinedId(db, flights[0]);
        forall r | r in rest ensures RowId(r) != RowId(head.value) {
          var f :| f in flights[1..] && JoinFlight(db, f) == Some(r);
          JoinedId(db, f);
        }
        DistinctCons(head.value, rest, RowId);
      }
    }
  }

  function RowId(r: FlightSearchResult): int { r.id }

  /** The rows a request selects, before ordering. */
  function Matching(db: Database, input: SearchInput, dayStart: int): (rows: seq<FlightSearchResult>)
    ensures |rows| <= |db.flights|
    ensures forall r :: r in rows ==> Admits(input, dayStart, r)
  {
    Filter(JoinFlights(db, db.flights), r => Admits(input, dayStart, r))
  }

  // ------------------------------------------------------------ the handler

  datatype SearchError = RepositoryFailure

  /** `searchFlights`. `dayStart` is the instant `new Date(departure_date)`
      denotes, in minutes, or None for an Invalid Date, which the database
      refuses. The result holds exactly the joined rows the request admits,
      each once, ordered by the requested key. */
  method Search(db: Database, input: SearchInput, dayStart: Option<int>)
    returns (result: Result<seq<FlightSearchResult>, SearchError>)
    ensures result.Err? <==> dayStart.None?
    ensures result.Ok? ==> multiset(result.value) == multiset(Matching(db, input, dayStart.value))
    ensures result.Ok? ==>
      SortedBy(result.value, ColumnKey(RequestedOrder(input).column), RequestedOrder(input).direction)
  {
    if dayStart.None? {
      return Err(RepositoryFailure);
    }
    var conditions := BuildWhere(input, dayStart.value);
    var order := RequestedOrder(input);
    var joined := JoinFlights(db, db.flights);
    var selected := Filter(joined, r => AllHold(conditions, r));
    FilterExt(joined, r => AllHold(conditions, r), r => Admits(input, dayStart.value, r));
    var rows := Sort(selected, ColumnKey(order.column), order.direction);
    return Ok(rows);
  }

  // ------------------------------------------------------------ properties

  /** A row is selected exactly when it is the join of a stored flight and the
      request admits it. */
  lemma MatchingMembership(db: Database, input: SearchInput, dayStart: int, r: FlightSearchResult)
    ensures r in Matching(db, input, dayStart)
        <==> Admits(input, dayStart, r) && exists f :: f in db.flights && JoinFlight(db, f) == Some(r)
  {
  }

  /** Every selected row has the requested cities, departs within the closed
      day window and has a seat for every passenger. */
  lemma MatchingBase(db: Database, input: SearchInput, dayStart: int, r: FlightSearchResult)
    requires r in Matching(db, input, dayStart)
    ensures r.originCity == input.originCity && r.destinationCity == input.destinationCity
    ensures dayStart <= r.departureTime <= dayStart + MinutesPerDay
    ensures r.availableSeats >= input.passengers
  {
  }

  /** No flight appears twice: with unique flight ids, result ids are distinct. */
  lemma MatchingDistinct(db: Database, input: SearchInput, dayStart: int, result: seq<FlightSearchResult>)
    requires UniqueFlightIds(db.flights)
    requires multiset(result) == multiset(Matching(db, input, dayStart))
    ensures DistinctBy(result, RowId)
  {
    JoinFlightsDistinct(db, db.flights);
    FilterDistinct(JoinFlights(db, db.flights), r => Admits(input, dayStart, r), RowId);
    DistinctUnderPermutation(Matching(db, input, dayStart), result, RowId);
  }

  /** The joined row copies the flight's, airline's and airports' fields. */
  lemma JoinedFields(db: Database, f: Flight)
    requires JoinFlight(db, f).Some?
    ensures var r := JoinFlight(db, f).value;
      && r.id == f.id && r.flightNumber == f.flightNumber && r.price == f.price && r.currency == f.currency
      && r.departureTime == f.departureTime && r.arrivalTime == f.arrivalTime
      && r.availableSeats == f.availableSeats && r.stops == f.stops && r.durationMinutes == f.durationMinutes
      && (exists a :: a in db.airlines && a.id == f.airlineId
            && r.airlineCode == a.code && r.airlineName == a.name && r.airlineLogoUrl == a.logoUrl)
      && (exists o :: o in db.airports && o.id == f.originAirportId
            && r.originAirportCode == o.code && r.originAirportName == o.name && r.originCity == o.city)
      && (exists d :: d in db.airports && d.id == f.destinationAirportId
            && r.destinationAirportCode == d.code && r.destinationAirportName == d.name && r.destinationCity == d.city)
  {
    var a := FindAirline(db.airlines, f.airlineId).value;
    var o := FindAirport(db.airports, f.originAirportId).value;
    var d := FindAirport(db.airports, f.destinationAirportId).value;
    assert a in db.airlines && o in db.airports && d in db.airports;
  }

  /** An empty airline list restricts nothing: it selects what no list selects. */
  lemma EmptyAirlinesSameAsAbsent(db: Database, input: SearchInput, dayStart: int, f: Filters)
    requires input.filters == Some(f.(airlines := Some([])))
    ensures Matching(db, input, dayStart) == Matching(db, input.(filters := Some(f.(airlines := None))), dayStart)
  {
    var other := input.(filters := Some(f.(airlines := None)));
    forall r ensures Admits(input, dayStart, r) == Admits(other, dayStart, r) {
      EmptyAirlinesAdmit(input, other, dayStart, f, r);
    }
    FilterExt(JoinFlights(db, db.flights), r => Admits(input, dayStart, r), r => Admits(other, dayStart, r));
  }

  lemma EmptyAirlinesAdmit(input: SearchInput, other: SearchInput, dayStart: int, f: Filters, r: FlightSearchResult)
    requires input.filters == Some(f.(airlines := Some([])))
    requires other == input.(filters := Some(f.(airlines := None)))
    ensures Admits(input, dayStart, r) == Admits(other, dayStart, r)
  {
    assert AirlinesOk(f.(airlines := Some([])), r) && AirlinesOk(f.(airlines := None), r);
  }

  /** A non-empty airline list keeps exactly the rows whose airline is listed. */
  lemma AirlineListRestricts(input: SearchInput, dayStart: int, f: Filters, r: FlightSearchResult)
    requires input.filters == Some(f) && f.airlines.Some? && |f.airlines.value| > 0
    ensures Admits(input, dayStart, r) ==> r.airlineCode in f.airlines.value
    ensures Admits(input.(filters := Some(f.(airlines := None))), dayStart, r) && r.airlineCode in f.airlines.value
            ==> Admits(input, dayStart, r)
  {
  }

  /** Each price, stop and duration bound is inclusive and binds only when
      present: a row passes exactly when it passes without these four bounds
      and lies on or within each bound given. */
  lemma BoundsInclusive(input: SearchInput, dayStart: int, f: Filters, r: FlightSearchResult)
    requires input.filters == Some(f)
    ensures Admits(input, dayStart, r) <==>
      && Admits(input.(filters := Some(f.(minPrice := None, maxPrice := None, maxStops := None,
                                          maxDurationHours := None))), dayStart, r)
      && (f.minPrice.None? || r.price >= f.minPrice.value)
      && (f.maxPrice.None? || r.price <= f.maxPrice.value)
      && (f.maxStops.None? || r.stops <= f.maxStops.value)
      && (f.maxDurationHours.None? || r.durationMinutes as real <= f.maxDurationHours.value * 60.0)
  {
  }

  /** A window whose end comes before its start admits no flight. */
  lemma WrappingWindowEmpty(input: SearchInput, dayStart: int, f: Filters, start: int, end: int, r: FlightSearchResult)
    requires input.filters == Some(f) && f.departureTimeRange.Some?
    requires TimeToMinutes(f.departureTimeRange.value.start) == Some(start)
    requires TimeToMinutes(f.departureTimeRange.value.end) == Some(end)
    requires end < start
    ensures !Admits(input, dayStart, r)
  {
  }

  /** With parseable bounds, a flight passes the window exactly when its clock
      time lies between them, both ends included. */
  lemma WindowInclusive(input: SearchInput, dayStart: int, f: Filters, start: int, end: int, r: FlightSearchResult)
    requires input.filters == Some(f) && f.departureTimeRange.Some?
    requires TimeToMinutes(f.departureTimeRange.value.start) == Some(start)
    requires TimeToMinutes(f.departureTimeRange.value.end) == Some(end)
    ensures Admits(input, dayStart, r)
        <==> Admits(input.(filters := Some(f.(departureTimeRange := None))), dayStart, r)
             && start <= ClockMinutes(r.departureTime) <= end
  {
    var g := f.(departureTimeRange := None);
    assert TimeRangeOk(f, r) <==> start <= ClockMinutes(r.departureTime) <= end;
    assert FiltersAdmit(input.filters, r) <==> FiltersAdmit(Some(g), r) && TimeRangeOk(f, r);
  }
}
