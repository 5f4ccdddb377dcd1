/** The request and response shapes of the search API and the validation the
    server applies to a request before the search handler sees it. A request
    arrives as a JSON value; `ParseSearchInput` accepts it exactly when the
    complete search-input schema does and then yields the typed request.
    Object keys the schema does not declare are dropped; an absent key is
    `undefined`, which only an optional field accepts. */
module Schema {
  import opened Options

  datatype TripType = OneWay | RoundTrip

  datatype SortKey =
    | PriceAsc | PriceDesc | DurationAsc | DurationDesc | DepartureTimeAsc | DepartureTimeDesc

  /** Two clock times, meant as "HH:MM" but not checked for that shape. */
  datatype TimeRange = TimeRange(start: string, end: string)

  datatype Filters = Filters(
    maxPrice: Option<real>,
    minPrice: Option<real>,
    maxStops: Option<int>,
    airlines: Option<seq<string>>,
    departureTimeRange: Option<TimeRange>,
    maxDurationHours: Option<real>)

  datatype SearchInput = SearchInput(
    originCity: string,
    destinationCity: string,
    departureDate: string,
    returnDate: Option<string>,
    passengers: int,
    tripType: TripType,
    filters: Option<Filters>,
    sort: Option<SortKey>)

  /** One search result row: a flight with its airline and both airports'
      display fields. Times are minutes since the epoch. */
  datatype FlightSearchResult = FlightSearchResult(
    id: int,
    airlineCode: string, airlineName: string, airlineLogoUrl: Option<string>,
    flightNumber: string,
    originAirportCode: string, originAirportName: string, originCity: string,
    destinationAirportCode: string, destinationAirportName: string, destinationCity: string,
    departureTime: int, arrivalTime: int,
    price: real, currency: string,
    availableSeats: int, stops: int, durationMinutes: int)

  /** One popular-route row: the stored route summary with both airports. */
  datatype PopularRoute = PopularRoute(
    id: int,
    originAirportCode: string, originAirportName: string, originCity: string,
    originCountry: string, originLatitude: real, originLongitude: real,
    destinationAirportCode: string, destinationAirportName: string, destinationCity: string,
    destinationCountry: string, destinationLatitude: real, destinationLongitude: real,
    minPrice: real, maxPrice: real, flightCount: int, lastUpdated: int)

  const NoFilters := Filters(None, None, None, None, None, None)

  function TripTypeName(t: TripType): string {
    match t
    case OneWay => "one_way"
    case RoundTrip => "round_trip"
  }

  function SortKeyName(k: SortKey): string {
    match k
    case PriceAsc => "price_asc"
    case PriceDesc => "price_desc"
    case DurationAsc => "duration_asc"
    case DurationDesc => "duration_desc"
    case DepartureTimeAsc => "departure_time_asc"
    case DepartureTimeDesc => "departure_time_desc"
  }

  // ---------------------------------------------------------------- JSON input

  datatype Json =
    | JNull
    | JBool(b: bool)
    | JNum(n: real)
    | JStr(s: string)
    | JArr(elems: seq<Json>)
    | JObj(fields: map<string, Json>)

  /** Where validation failed: the path of the first offending field in the
      order the schema declares its fields. */
  datatype Issue = Issue(path: seq<string>)

  function Field(fields: map<string, Json>, key: string): Option<Json> {
    if key in fields then Some(fields[key]) else None
  }

  predicate IsInteger(x: real) {
    x.Floor as real == x
  }

  /** `z.string()` */
  function ParseString(v: Option<Json>, path: seq<string>): (r: Result<string, Issue>)
    ensures r.Ok? <==> v.Some? && v.value.JStr?
    ensures r.Ok? ==> v == Some(JStr(r.value))
  {
    if v.Some? && v.value.JStr? then Ok(v.value.s) else Err(Issue(path))
  }

  /** `z.string().optional()` */
  function ParseOptString(v: Option<Json>, path: seq<string>): (r: Result<Option<string>, Issue>)
    ensures r.Ok? <==> v.None? || v.value.JStr?
    ensures r == Ok(None) <==> v.None?
    ensures r.Ok? && r.value.Some? ==> v == Some(JStr(r.value.value))
  {
    if v.None? then Ok(None)
    else if v.value.JStr? then Ok(Some(v.value.s))
    else Err(Issue(path))
  }

  /** `z.number().optional()` */
  function ParseOptNumber(v: Option<Json>, path: seq<string>): (r: Result<Option<real>, Issue>)
    ensures r.Ok? <==> v.None? || v.value.JNum?
    ensures r == Ok(None) <==> v.None?
    ensures r.Ok? && r.value.Some? ==> v == Some(JNum(r.value.value))
  {
    if v.None? then Ok(None)
    else if v.value.JNum? then Ok(Some(v.value.n))
    else Err(Issue(path))
  }

  /** `z.number().int().optional()` */
  function ParseOptInt(v: Option<Json>, path: seq<string>): (r: Result<Option<int>, Issue>)
    ensures r.Ok? <==> v.None? || (v.value.JNum? && IsInteger(v.value.n))
    ensures r == Ok(None) <==> v.None?
    ensures r.Ok? && r.value.Some? ==> v == Some(JNum(r.value.value as real))
  {
    if v.None? then Ok(None)
    else if v.value.JNum? && IsInteger(v.value.n) then Ok(Some(v.value.n.Floor))
    else Err(Issue(path))
  }

  /** `z.number().int().min(1).max(9)`: accepted exactly for the integers 1..9. */
  function ParsePassengers(v: Option<Json>, path: seq<string>): (r: Result<int, Issue>)
    ensures r.Ok? ==> 1 <= r.value <= 9 && v == Some(JNum(r.value as real))
    ensures forall n: int :: 1 <= n <= 9 && v == Some(JNum(n as real)) ==> r == Ok(n)
  {
    if v.Some? && v.value.JNum? && IsInteger(v.value.n) && 1.0 <= v.value.n <= 9.0 then
      Ok(v.value.n.Floor)
    else Err(Issue(path))
  }

  /** `z.enum(['one_way', 'round_trip'])` */
  function ParseTripType(v: Option<Json>, path: seq<string>): (r: Result<TripType, Issue>)
    ensures r.Ok? ==> v == Some(JStr(TripTypeName(r.value)))
    ensures forall t :: v == Some(JStr(TripTypeName(t))) ==> r == Ok(t)
  {
    if v == Some(JStr("one_way")) then Ok(OneWay)
    else if v == Some(JStr("round_trip")) then Ok(RoundTrip)
    else Err(Issue(path))
  }

  function SortKeyOf(name: string): (r: Option<SortKey>)
    ensures r.Some? ==> SortKeyName(r.value) == name
    ensures forall k :: SortKeyName(k) == name ==> r == Some(k)
  {
    if name == "price_asc" then Some(PriceAsc)
    else if name == "price_desc" then Some(PriceDesc)
    else if name == "duration_asc" then Some(DurationAsc)
    else if name == "duration_desc" then Some(DurationDesc)
    else if name == "departure_time_asc" then Some(DepartureTimeAsc)
    else if name == "departure_time_desc" then Some(DepartureTimeDesc)
    else None
  }

  /** `flightSortSchema.optional()`: absent, or one of the six key names. */
  function ParseSort(v: Option<Json>, path: seq<string>): (r: Result<Option<SortKey>, Issue>)
    ensures r == Ok(None) <==> v.None?
    ensures r.Ok? && r.value.Some? ==> v == Some(JStr(SortKeyName(r.value.value)))
    ensures forall k :: v == Some(JStr(SortKeyName(k))) ==> r == Ok(Some(k))
  {
    if v.None? then Ok(None)
    else if v.value.JStr? && SortKeyOf(v.value.s).Some? then Ok(SortKeyOf(v.value.s))
    else Err(Issue(path))
  }

  /** `z.array(z.string())` applied to the elements of an array. */
  function ParseStrings(elems: seq<Json>): (r: Option<seq<string>>)
    ensures r.Some? <==> forall i :: 0 <= i < |elems| ==> elems[i].JStr?
    ensures r.Some? ==> |r.value| == |elems| && forall i :: 0 <= i < |elems| ==> elems[i] == JStr(r.value[i])
  {
    if elems == [] then Some([])
    else if !elems[0].JStr? then None
    else
      var rest := ParseStrings(elems[1..]);
      assert forall i :: 1 <= i < |elems| ==> elems[i] == elems[1..][i - 1];
      if rest.None? then None else Some([elems[0].s] + rest.value)
  }

  function ParseOptStrings(v: Option<Json>, path: seq<string>): (r: Result<Option<seq<string>>, Issue>)
    ensures r == Ok(None) <==> v.None?
    ensures r.Ok? <==> v.None? || (v.value.JArr? && ParseStrings(v.value.elems).Some?)
  {
    if v.None? then Ok(None)
    else if v.value.JArr? && ParseStrings(v.value.elems).Some? then Ok(ParseStrings(v.value.elems))
    else Err(Issue(path))
  }

  /** `z.object({ start: z.string(), end: z.string() }).optional()`: both
      strings must be there, whatever they contain. */
  function ParseOptTimeRange(v: Option<Json>, path: seq<string>): (r: Result<Option<TimeRange>, Issue>)
    ensures r == Ok(None) <==> v.None?
    ensures r.Ok? <==> v.None? || (v.value.JObj? && Field(v.value.fields, "start").Some? && Field(v.value.fields, "start").value.JStr?
                                   && Field(v.value.fields, "end").Some? && Field(v.value.fields, "end").value.JStr?)
  {
    if v.None? then Ok(None)
    else if !v.value.JObj? then Err(Issue(path))
    else
      var start := ParseString(Field(v.value.fields, "start"), path + ["start"]);
      var end := ParseString(Field(v.value.fields, "end"), path + ["end"]);
      if start.Err? then Err(start.error)
      else if end.Err? then Err(end.error)
      else Ok(Some(TimeRange(start.value, end.value)))
  }

  /** What each field of a filters object must be: absent, or of its type. */
  predicate OptNumberField(v: Option<Json>) {
    v.None? || v.value.JNum?
  }

  predicate OptIntegerField(v: Option<Json>) {
    v.None? || (v.value.JNum? && IsInteger(v.value.n))
  }

  predicate OptStringArrayField(v: Option<Json>) {
    v.None? || (v.value.JArr? && forall i :: 0 <= i < |v.value.elems| ==> v.value.elems[i].JStr?)
  }

  predicate OptTimeRangeField(v: Option<Json>) {
    v.None? || (v.value.JObj? && Field(v.value.fields, "start").Some? && Field(v.value.fields, "start").value.JStr?
                && Field(v.value.fields, "end").Some? && Field(v.value.fields, "end").value.JStr?)
  }

  /** The six declared fields of `flightSearchFiltersSchema`, each optional. */
  predicate FilterFieldsOk(fs: map<string, Json>) {
    && OptNumberField(Field(fs, "max_price"))
    && OptNumberField(Field(fs, "min_price"))
    && OptIntegerField(Field(fs, "max_stops"))
    && OptStringArrayField(Field(fs, "airlines"))
    && OptTimeRangeField(Field(fs, "departure_time_range"))
    && OptNumberField(Field(fs, "max_duration_hours"))
  }

  /** `flightSearchFiltersSchema.optional()`: absent, or an object each of
      whose declared fields is absent or of its type; a non-integral
      `max_stops` or a non-number price is refused. */
  function ParseOptFilters(v: Option<Json>, path: seq<string>): (r: Result<Option<Filters>, Issue>)
    ensures r == Ok(None) <==> v.None?
    ensures r.Ok? <==> v.None? || (v.value.JObj? && FilterFieldsOk(v.value.fields))
  {
    if v.None? then Ok(None)
    else if !v.value.JObj? then Err(Issue(path))
    else
      var f := v.value.fields;
      var maxPrice := ParseOptNumber(Field(f, "max_price"), path + ["max_price"]);
      var minPrice := ParseOptNumber(Field(f, "min_price"), path + ["min_price"]);
      var maxStops := ParseOptInt(Field(f, "max_stops"), path + ["max_stops"]);
      var airlines := ParseOptStrings(Field(f, "airlines"), path + ["airlines"]);
      var range := ParseOptTimeRange(Field(f, "departure_time_range"), path + ["departure_time_range"]);
      var maxHours := ParseOptNumber(Field(f, "max_duration_hours"), path + ["max_duration_hours"]);
      if maxPrice.Err? then Err(maxPrice.error)
      else if minPrice.Err? then Err(minPrice.error)
      else if maxStops.Err? then Err(maxStops.error)
      else if airlines.Err? then Err(airlines.error)
      else if range.Err? then Err(range.error)
      else if maxHours.Err? then Err(maxHours.error)
      else Ok(Some(Filters(maxPrice.value, minPrice.value, maxStops.value, airlines.value, range.value, maxHours.value)))
  }

  /** What every accepted request satisfies beyond its types. */
  predicate ValidInput(x: SearchInput) {
    1 <= x.passengers <= 9
  }

  /** `completeFlightSearchInputSchema.parse`. */
  function ParseSearchInput(j: Json): (r: Result<SearchInput, Issue>)
    ensures r.Ok? ==> j.JObj? && ValidInput(r.value)
    ensures r.Ok? ==> Field(j.fields, "passengers") == Some(JNum(r.value.passengers as real))
  {
    if !j.JObj? then Err(Issue([]))
    else
      var f := j.fields;
      var origin := ParseString(Field(f, "origin_city"), ["origin_city"]);
      var destination := ParseString(Field(f, "destination_city"), ["destination_city"]);
      var departure := ParseString(Field(f, "departure_date"), ["departure_date"]);
      var returning := ParseOptString(Field(f, "return_date"), ["return_date"]);
      var passengers := ParsePassengers(Field(f, "passengers"), ["passengers"]);
      var tripType := ParseTripType(Field(f, "trip_type"), ["trip_type"]);
      var filters := ParseOptFilters(Field(f, "filters"), ["filters"]);
      var sort := ParseSort(Field(f, "sort"), ["sort"]);
      if origin.Err? then Err(origin.error)
      else if destination.Err? then Err(destination.error)
      else if departure.Err? then Err(departure.error)
      else if returning.Err? then Err(returning.error)
      else if passengers.Err? then Err(passengers.error)
      else if tripType.Err? then Err(tripType.error)
      else if filters.Err? then Err(filters.error)
      else if sort.Err? then Err(sort.error)
      else Ok(SearchInput(origin.value, destination.value, departure.value, returning.value,
                          passengers.value, tripType.value, filters.value, sort.value))
  }

  // ---------------------------------------------------------------- encoding

  /** A map holding `key: value` exactly when the optional value is present. */
  function Put(m: map<string, Json>, key: string, v: Option<Json>): map<string, Json> {
    if v.Some? then m[key := v.value] else m - {key}
  }

  function OptNum(v: Option<real>): Option<Json> {
    if v.Some? then Some(JNum(v.value)) else None
  }

  function StringsJson(s: seq<string>): (r: seq<Json>)
    ensures |r| == |s| && forall i :: 0 <= i < |s| ==> r[i] == JStr(s[i])
  {
    seq(|s|, i requires 0 <= i < |s| => JStr(s[i]))
  }

  function EncodeFilters(f: Filters): Json {
    var m: map<string, Json> := map[];
    var m := Put(m, "max_price", OptNum(f.maxPrice));
    var m := Put(m, "min_price", OptNum(f.minPrice));
    var m := Put(m, "max_stops", if f.maxStops.Some? then Some(JNum(f.maxStops.value as real)) else None);
    var m := Put(m, "airlines", if f.airlines.Some? then Some(JArr(StringsJson(f.airlines.value))) else None);
    var m := Put(m, "departure_time_range",
                 if f.departureTimeRange.Some? then
                   Some(JObj(map["start" := JStr(f.departureTimeRange.value.start),
                                 "end" := JStr(f.departureTimeRange.value.end)]))
                 else None);
    var m := Put(m, "max_duration_hours", OptNum(f.maxDurationHours));
    JObj(m)
  }

  /** The JSON a client sends for a typed request: absent fields are left out. */
  function EncodeSearchInput(x: SearchInput): Json {
    var m: map<string, Json> := map[];
    var m := Put(m, "origin_city", Some(JStr(x.originCity)));
    var m := Put(m, "destination_city", Some(JStr(x.destinationCity)));
    var m := Put(m, "departure_date", Some(JStr(x.departureDate)));
    var m := Put(m, "return_date", if x.returnDate.Some? then Some(JStr(x.returnDate.value)) else None);
    var m := Put(m, "passengers", Some(JNum(x.passengers as real)));
    var m := Put(m, "trip_type", Some(JStr(TripTypeName(x.tripType))));
    var m := Put(m, "filters", if x.filters.Some? then Some(EncodeFilters(x.filters.value)) else None);
    var m := Put(m, "sort", if x.sort.Some? then Some(JStr(SortKeyName(x.sort.value))) else None);
    JObj(m)
  }

  lemma FieldPut(m: map<string, Json>, key: string, v: Option<Json>, other: string)
    ensures Field(Put(m, key, v), other) == if other == key then v else Field(m, other)
  {
  }

  /** The field values of encoded filters: absent when unset. */
  lemma EncodedFilterValues(f: Filters)
    ensures var fs := EncodeFilters(f).fields;
      && Field(fs, "max_price") == OptNum(f.maxPrice)
      && Field(fs, "min_price") == OptNum(f.minPrice)
      && Field(fs, "max_stops") == (if f.maxStops.Some? then Some(JNum(f.maxStops.value as real)) else None)
      && Field(fs, "max_duration_hours") == OptNum(f.maxDurationHours)
  {
  }

  lemma EncodedFilterCollections(f: Filters)
    ensures var fs := EncodeFilters(f).fields;
      && Field(fs, "airlines") == (if f.airlines.Some? then Some(JArr(StringsJson(f.airlines.value))) else None)
      && Field(fs, "departure_time_range") ==
           if f.departureTimeRange.Some? then
             Some(JObj(map["start" := JStr(f.departureTimeRange.value.start),
                           "end" := JStr(f.departureTimeRange.value.end)]))
           else None
  {
  }

  /** Encoded filters validate back to the same filters. */
  lemma ParseEncodeFilters(f: Filters, path: seq<string>)
    ensures ParseOptFilters(Some(EncodeFilters(f)), path) == Ok(Some(f))
  {
    var fs := EncodeFilters(f).fields;
    EncodedFilterValues(f);
    EncodedFilterCollections(f);
    if f.maxStops.Some? {
      assert (f.maxStops.value as real).Floor == f.maxStops.value;
    }
    assert ParseOptInt(Field(fs, "max_stops"), path + ["max_stops"]) == Ok(f.maxStops);
    if f.airlines.Some? {
      var back := ParseStrings(StringsJson(f.airlines.value));
      assert back.Some? && back.value == f.airlines.value;
    }
    assert ParseOptStrings(Field(fs, "airlines"), path + ["airlines"]) == Ok(f.airlines);
    if f.departureTimeRange.Some? {
      var tr := f.departureTimeRange.value;
      var obj := map["start" := JStr(tr.start), "end" := JStr(tr.end)];
      assert Field(obj, "start") == Some(JStr(tr.start));
      assert Field(obj, "end") == Some(JStr(tr.end));
    }
    assert ParseOptTimeRange(Field(fs, "departure_time_range"), path + ["departure_time_range"]) == Ok(f.departureTimeRange);
  }

  /** The text field values of an encoded request. */
  lemma EncodedTextValues(x: SearchInput)
    ensures var fs := EncodeSearchInput(x).fields;
      && Field(fs, "origin_city") == Some(JStr(x.originCity))
      && Field(fs, "destination_city") == Some(JStr(x.destinationCity))
      && Field(fs, "departure_date") == Some(JStr(x.departureDate))
  {
  }

  /** The passenger count and trip type of an encoded request. */
  lemma EncodedChoiceValues(x: SearchInput)
    ensures var fs := EncodeSearchInput(x).fields;
      && Field(fs, "passengers") == Some(JNum(x.passengers as real))
      && Field(fs, "trip_type") == Some(JStr(TripTypeName(x.tripType)))
  {
  }

  /** The optional field values of an encoded request: absent when unset. */
  lemma EncodedOptionalValues(x: SearchInput)
    ensures var fs := EncodeSearchInput(x).fields;
      && Field(fs, "return_date") == (if x.returnDate.Some? then Some(JStr(x.returnDate.value)) else None)
      && Field(fs, "filters") == (if x.filters.Some? then Some(EncodeFilters(x.filters.value)) else None)
      && Field(fs, "sort") == (if x.sort.Some? then Some(JStr(SortKeyName(x.sort.value))) else None)
  {
  }

  /** Each field of an encoded valid request validates to the field it came from. */
  lemma EncodedFieldsParse(x: SearchInput)
    requires ValidInput(x)
    ensures var fs := EncodeSearchInput(x).fields;
      && ParseString(Field(fs, "origin_city"), ["origin_city"]) == Ok(x.originCity)
      && ParseString(Field(fs, "destination_city"), ["destination_city"]) == Ok(x.destinationCity)
      && ParseString(Field(fs, "departure_date"), ["departure_date"]) == Ok(x.departureDate)
      && ParseOptString(Field(fs, "return_date"), ["return_date"]) == Ok(x.returnDate)
      && ParsePassengers(Field(fs, "passengers"), ["passengers"]) == Ok(x.passengers)
      && ParseTripType(Field(fs, "trip_type"), ["trip_type"]) == Ok(x.tripType)
      && ParseOptFilters(Field(fs, "filters"), ["filters"]) == Ok(x.filters)
      && ParseSort(Field(fs, "sort"), ["sort"]) == Ok(x.sort)
  {
    EncodedTextValues(x);
    EncodedChoiceValues(x);
    EncodedOptionalValues(x);
    if x.filters.Some? {
      ParseEncodeFilters(x.filters.value, ["filters"]);
    }
    assert (x.passengers as real).Floor == x.passengers;
  }

  /** Every valid typed request survives being sent as JSON and validated. */
  lemma ParseEncode(x: SearchInput)
    requires ValidInput(x)
    ensures ParseSearchInput(EncodeSearchInput(x)) == Ok(x)
  {
    EncodedFieldsParse(x);
  }

  /** A request object is accepted exactly when each declared field is. */
  lemma AcceptedIffFields(f: map<string, Json>)
    ensures ParseSearchInput(JObj(f)).Ok? <==>
      && ParseString(Field(f, "origin_city"), ["origin_city"]).Ok?
      && ParseString(Field(f, "destination_city"), ["destination_city"]).Ok?
      && ParseString(Field(f, "departure_date"), ["departure_date"]).Ok?
      && ParseOptString(Field(f, "return_date"), ["return_date"]).Ok?
      && ParsePassengers(Field(f, "passengers"), ["passengers"]).Ok?
      && ParseTripType(Field(f, "trip_type"), ["trip_type"]).Ok?
      && ParseOptFilters(Field(f, "filters"), ["filters"]).Ok?
      && ParseSort(Field(f, "sort"), ["sort"]).Ok?
  {
  }

  /** An accepted request validates to the same value as the encoding of what
      it validated to: a corollary of `ParseEncode`. */
  lemma AcceptedIsEncoding(j: Json)
    requires ParseSearchInput(j).Ok?
    ensures ParseSearchInput(EncodeSearchInput(ParseSearchInput(j).value)) == ParseSearchInput(j)
  {
    ParseEncode(ParseSearchInput(j).value);
  }

  /** Replaces (or removes, when `v` is None) one top-level field of a request. */
  function WithField(x: SearchInput, key: string, v: Option<Json>): Json {
    JObj(Put(EncodeSearchInput(x).fields, key, v))
  }

  /** With every other field valid, `passengers` decides acceptance: it is
      accepted exactly when it is an integer from 1 to 9. */
  lemma PassengersAcceptedIff(x: SearchInput, v: Option<Json>)
    requires ValidInput(x)
    ensures ParseSearchInput(WithField(x, "passengers", v)).Ok?
        <==> v.Some? && v.value.JNum? && IsInteger(v.value.n) && 1.0 <= v.value.n <= 9.0
  {
    var fs := EncodeSearchInput(x).fields;
    var f := Put(fs, "passengers", v);
    EncodedFieldsParse(x);
    FieldPut(fs, "passengers", v, "origin_city");
    FieldPut(fs, "passengers", v, "destination_city");
    FieldPut(fs, "passengers", v, "departure_date");
    FieldPut(fs, "passengers", v, "return_date");
    FieldPut(fs, "passengers", v, "passengers");
    FieldPut(fs, "passengers", v, "trip_type");
    FieldPut(fs, "passengers", v, "filters");
    FieldPut(fs, "passengers", v, "sort");
    AcceptedIffFields(f);
    if v.Some? && v.value.JNum? && IsInteger(v.value.n) && 1.0 <= v.value.n <= 9.0 {
      var n := v.value.n.Floor;
      assert v == Some(JNum(n as real));
      assert ParsePassengers(v, ["passengers"]) == Ok(n);
    }
  }

  /** With every other field valid, `trip_type` is accepted exactly when it is
      "one_way" or "round_trip". */
  lemma TripTypeAcceptedIff(x: SearchInput, v: Option<Json>)
    requires ValidInput(x)
    ensures ParseSearchInput(WithField(x, "trip_type", v)).Ok?
        <==> v == Some(JStr("one_way")) || v == Some(JStr("round_trip"))
  {
    var fs := EncodeSearchInput(x).fields;
    var f := Put(fs, "trip_type", v);
    EncodedFieldsParse(x);
    FieldPut(fs, "trip_type", v, "origin_city");
    FieldPut(fs, "trip_type", v, "destination_city");
    FieldPut(fs, "trip_type", v, "departure_date");
    FieldPut(fs, "trip_type", v, "return_date");
    FieldPut(fs, "trip_type", v, "passengers");
    FieldPut(fs, "trip_type", v, "trip_type");
    FieldPut(fs, "trip_type", v, "filters");
    FieldPut(fs, "trip_type", v, "sort");
    AcceptedIffFields(f);
    assert TripTypeName(OneWay) == "one_way" && TripTypeName(RoundTrip) == "round_trip";
  }

  /** With every other field valid, `sort` is accepted exactly when it is absent
      or one of the six key names. */
  lemma SortAcceptedIff(x: SearchInput, v: Option<Json>)
    requires ValidInput(x)
    ensures ParseSearchInput(WithField(x, "sort", v)).Ok?
        <==> v.None? || (v.value.JStr? && SortKeyOf(v.value.s).Some?)
  {
    var fs := EncodeSearchInput(x).fields;
    var f := Put(fs, "sort", v);
    EncodedFieldsParse(x);
    FieldPut(fs, "sort", v, "origin_city");
    FieldPut(fs, "sort", v, "destination_city");
    FieldPut(fs, "sort", v, "departure_date");
    FieldPut(fs, "sort", v, "return_date");
    FieldPut(fs, "sort", v, "passengers");
    FieldPut(fs, "sort", v, "trip_type");
    FieldPut(fs, "sort", v, "filters");
    FieldPut(fs, "sort", v, "sort");
    AcceptedIffFields(f);
  }
}
