# Flight fare explorer: a verified model of its search core

This project models the flight search application's core in Dafny:

- the server's flight search (`searchFlights`, with `timeToMinutes` and `getSortClause`);
- the popular-routes query (`getPopularRoutes`) and the airports-by-city query (`getAirportsByCity`);
- the zod schema that validates a complete search request;
- the client logic around them:
  - the search form's state and its submit handler;
  - the texts and thresholds of the results list;
  - the popular-routes panel;
  - the city markers and figures of the interactive route map.

The database is a value (`Tables.Database`): one sequence per table, in storage order.

- A query is a function of that value.
- An inner join looks a row up by id (`FindAirline`, `FindAirport`).
- A `WHERE` clause is a sequence of conditions that must all hold.
- `ORDER BY` is stated as "a permutation of the selected rows, sorted by the key". The model picks one such order by insertion sort (`Sorting.Sort`).

Other modelling choices:

- Prices, coordinates and hours are exact reals.
- Timestamps are integer minutes. The clock time of a timestamp is its remainder modulo 1440.
- The zod schema is a parser from a small JSON datatype (`Schema.Json`) to the typed request. An encoder goes back, and the two are proved to round-trip.

The search form is a class whose fields are the React state: the request being edited, the two price-slider values and the duration-slider value. Each handler is a method that changes exactly the state its setter changes.

The route map's `cityMarkers` is a method with a loop over the routes. It fills a map keyed by `city-country`, and is proved to produce one marker per key, in the order of the keys' first endpoints (`FirstKeysInOrder`), each counting the route endpoints with that key.

Three behaviours of the code that the model keeps:

- The search's day window is closed at both ends: `>= departure` and `<= next day`. A flight leaving exactly at the next midnight is selected.
- Results are ordered by SQL `ORDER BY` alone, so rows with equal keys come in no promised order. No stability is claimed. `Sorting.SortedKeysUnique` shows that every admissible order has the same key sequence.
- `departure_time_range` strings are not checked to be `HH:MM`. `timeToMinutes` takes `Number` of the pieces around the first `:`, so `"25:99"` gives 1599. A missing `:` or a non-numeric piece gives NaN. As the database orders NaN above every number, a NaN start admits nothing and a NaN end sets no upper bound.

## Model

| member | source | states |
|---|---|---|
| Tables.FindAirline | server/src/handlers/search_flights.ts:39 | the airline joined on `f.airline_id = a.id`: a stored airline with that id, None exactly when no airline has it, and the row itself when ids are unique |
| Tables.FindAirport | server/src/handlers/search_flights.ts:40-41 | the airport joined on an airport id: a stored airport with that id, None exactly when none has it, and the row itself when ids are unique |
| Text.NatToString | client/src/components/FlightResults.tsx:18 | the decimal text of a non-negative number: digits only, no leading zero, one digit exactly below 10 |
| Text.NatToStringRoundTrip | client/src/components/FlightResults.tsx:18 | reading the decimal text of `n` back gives `n` |
| Text.IntToString | client/src/components/FlightResults.tsx:18 | template-literal text of an integer: the decimal text, preceded by `-` for a negative number |
| Text.PadStart2 | client/src/components/FlightResults.tsx:18 | `padStart(2, '0')`: a text of two or more characters is unchanged; a shorter one becomes two characters ending in the original, with zeros in front |
| Text.JsNumber | server/src/handlers/search_flights.ts:116 | `Number` on a piece: the empty text is 0, a digit run is its value, a sign followed by digits is the signed value (`"-5"` is -5), and nothing else is accepted |
| Sorting.Insert | server/src/handlers/search_flights.ts:80 | inserting into a sorted sequence keeps it sorted and adds exactly that element |
| Sorting.Sort | server/src/handlers/search_flights.ts:80 | `ORDER BY key ASC/DESC`: the result is a permutation of the input, sorted by the key in the given direction |
| Sorting.InOrderTotal | server/src/handlers/search_flights.ts:80 | any two keys are in order one way or the other |
| Sorting.SortedKeysUnique | server/src/handlers/search_flights.ts:80 | two sorted permutations of the same rows have the same key at every position, so ties may only reorder rows with equal keys |
| Sequences.Filter | server/src/handlers/search_flights.ts:42-77 | the rows satisfying a condition, in order: an element is kept exactly when it is in the input and satisfies the condition, with its multiplicity kept |
| Sequences.FilterExt | server/src/handlers/search_flights.ts:42-77 | two conditions that agree on every row select the same rows |
| Sequences.FilterDistinct | server/src/handlers/search_flights.ts:42-77 | selecting rows keeps their ids distinct |
| Sequences.DistinctUnderPermutation | server/src/handlers/search_flights.ts:80 | reordering rows keeps their ids distinct |
| Schema.ParseString | server/src/schema.ts:64-66 | `z.string()` accepts exactly a present string and returns it |
| Schema.ParseOptString | server/src/schema.ts:67 | `z.string().optional()` accepts an absent field (None) or a string, and rejects anything else |
| Schema.ParseOptNumber | server/src/schema.ts:123-124 | `z.number().optional()` accepts an absent field or a number, and returns it unchanged |
| Schema.ParseOptInt | server/src/schema.ts:125 | `z.number().int().optional()` accepts an absent field or a number with no fractional part |
| Schema.ParsePassengers | server/src/schema.ts:68 | `z.number().int().min(1).max(9)`: every accepted value is an integer from 1 to 9, and every such integer is accepted |
| Schema.ParseTripType | server/src/schema.ts:69 | the trip-type enum accepts exactly `"one_way"` and `"round_trip"`, mapped to the matching value |
| Schema.SortKeyOf | server/src/schema.ts:137 | a name maps to a sort key exactly when it is that key's name |
| Schema.ParseSort | server/src/schema.ts:137-144 | an absent sort is None, and each of the six key names maps to its key |
| Schema.ParseStrings | server/src/schema.ts:126 | an array is accepted exactly when every element is a string, and the same strings come back in order |
| Schema.ParseOptStrings | server/src/schema.ts:126 | an optional airline list is absent, or an array of strings |
| Schema.ParseOptTimeRange | server/src/schema.ts:127-130 | a time range is accepted exactly when it is an object with string `start` and `end`, whatever their content |
| Schema.ParseOptFilters | server/src/schema.ts:122-132 | an absent filters object is None; a present one is accepted exactly when it is an object whose prices and maximum duration are absent or numbers, whose `max_stops` is absent or an integral number, whose airline list is absent or an array of strings, and whose time range is absent or has string `start` and `end` |
| Schema.ParseSearchInput | server/src/schema.ts:142-145 | the complete input schema: an accepted value is an object whose passenger count is valid and equal to the JSON number given |
| Schema.StringsJson | server/src/schema.ts:126 | the JSON array of a string list holds those strings in order |
| Schema.FieldPut | server/src/schema.ts:142-145 | setting one field of a request object leaves every other field as it was |
| Schema.ParseEncodeFilters | server/src/schema.ts:122-132 | every filters value encodes to JSON that validates back to the same filters |
| Schema.EncodedFilterValues | server/src/schema.ts:122-132 | the numeric fields of encoded filters hold the typed values, and are absent when unset |
| Schema.EncodedFilterCollections | server/src/schema.ts:126-130 | the airline list and time range of encoded filters hold the typed values, and are absent when unset |
| Schema.EncodedTextValues | server/src/schema.ts:64-66 | the three text fields of an encoded request hold the typed strings |
| Schema.EncodedChoiceValues | server/src/schema.ts:68-69 | the passenger count and trip type of an encoded request hold the typed values |
| Schema.EncodedOptionalValues | server/src/schema.ts:142-145 | the return date, filters and sort of an encoded request hold the typed values, and are absent when unset |
| Schema.EncodedFieldsParse | server/src/schema.ts:63-70 | each field of an encoded valid request validates to the field it came from |
| Schema.ParseEncode | server/src/schema.ts:142-145 | every valid typed request, encoded and validated, gives itself back |
| Schema.AcceptedIffFields | server/src/schema.ts:63-70 | a request object is accepted exactly when each of its eight declared fields is |
| Schema.AcceptedIsEncoding | server/src/schema.ts:142-145 | an accepted JSON request validates to the same value as the encoding of its parse |
| Schema.PassengersAcceptedIff | server/src/schema.ts:68 | with the other fields valid, a request is accepted exactly when `passengers` is an integer from 1 to 9 |
| Schema.TripTypeAcceptedIff | server/src/schema.ts:69 | with the other fields valid, a request is accepted exactly when `trip_type` is one of the two names |
| Schema.SortAcceptedIff | server/src/schema.ts:144 | with the other fields valid, a request is accepted exactly when `sort` is absent or one of the six key names |
| SearchFlights.Split | server/src/handlers/search_flights.ts:116 | `split(':')` gives at least one piece, and no piece contains the separator |
| SearchFlights.JoinSplit | server/src/handlers/search_flights.ts:116 | joining the pieces with the separator gives the original text |
| SearchFlights.SplitAtSeparator | server/src/handlers/search_flights.ts:116 | a text with one separator splits into the two sides |
| SearchFlights.SplitNone | server/src/handlers/search_flights.ts:116 | a text without the separator is a single piece |
| SearchFlights.TimeToMinutes | server/src/handlers/search_flights.ts:115-118 | a time without `:` is NaN: a number comes out only when the text has a `:` |
| SearchFlights.TimeToMinutesNoColon | server/src/handlers/search_flights.ts:115-118 | without a `:` the minutes are undefined and the result is NaN |
| SearchFlights.TimeToMinutesDigits | server/src/handlers/search_flights.ts:115-118 | `"HH:MM"` with digit runs gives HH * 60 + MM, with no range check |
| SearchFlights.ClockMinutes | server/src/handlers/search_flights.ts:75-76 | `EXTRACT(HOUR) * 60 + EXTRACT(MINUTE)` is in 0..1439 and differs from the timestamp by whole days |
| SearchFlights.AllHoldConcat | server/src/handlers/search_flights.ts:49-77 | appending `AND` conditions to a clause requires both parts to hold |
| SearchFlights.BaseClauseMeaning | server/src/handlers/search_flights.ts:42-46 | the mandatory clause holds exactly for the requested cities, a departure in the closed day window, and enough seats |
| SearchFlights.TimeRangeClauseMeaning | server/src/handlers/search_flights.ts:70-77 | the time-range clause holds exactly when the clock time is at least the start and at most the end |
| SearchFlights.FilterClausesMeaning | server/src/handlers/search_flights.ts:50-68 | each optional filter's clause holds exactly when that filter admits the row, and is empty when the filter is absent |
| SearchFlights.WhereClauseMeaning | server/src/handlers/search_flights.ts:42-77 | the whole clause, in the handler's order, holds exactly for the rows the request admits |
| SearchFlights.WhereClauseAdmits | server/src/handlers/search_flights.ts:42-77 | for every row, the whole clause holds exactly when the request admits the row |
| SearchFlights.BuildWhere | server/src/handlers/search_flights.ts:42-77 | the query built step by step holds for a row exactly when the request admits it, that is, the base conditions and every filter present |
| SearchFlights.SortClause | server/src/handlers/search_flights.ts:120-137 | each of the six sort names gives its column and direction; an absent or unknown name gives price ascending |
| SearchFlights.JoinFlight | server/src/handlers/search_flights.ts:38-41 | a flight joins exactly when an airline with its airline id and airports with both its airport ids exist, and the joined row has the flight's id |
| SearchFlights.JoinFlights | server/src/handlers/search_flights.ts:38-41 | a row is in the join exactly when it is the join of some stored flight with its airline and airports; there are no more rows than flights |
| SearchFlights.JoinedId | server/src/handlers/search_flights.ts:89 | a joined row carries its flight's id |
| SearchFlights.JoinFlightsDistinct | server/src/handlers/search_flights.ts:38-41 | with unique flight ids, the joined rows have distinct ids |
| SearchFlights.Search | server/src/handlers/search_flights.ts:8-112 | an invalid date fails the query; otherwise the result is a permutation of the admitted joined rows, sorted by the requested key and direction |
| SearchFlights.Matching | server/src/handlers/search_flights.ts:38-77 | the selected rows, before ordering: no more than the flights, and each admitted by the request |
| SearchFlights.MatchingMembership | server/src/handlers/search_flights.ts:38-77 | a row is selected exactly when the request admits it and it joins a stored flight |
| SearchFlights.MatchingBase | server/src/handlers/search_flights.ts:42-46 | every selected row has the requested cities, departs within the closed day window and has a seat for every passenger |
| SearchFlights.MatchingDistinct | server/src/handlers/search_flights.ts:8-112 | with unique flight ids, no flight appears twice in the result |
| SearchFlights.JoinedFields | server/src/handlers/search_flights.ts:88-107 | a result row copies the flight's id, number, times, price, currency, seats, stops and duration, its airline's code, name and logo, and its two airports' codes, names and cities |
| SearchFlights.EmptyAirlinesSameAsAbsent | server/src/handlers/search_flights.ts:62-64 | an empty airline list selects the same rows as no list |
| SearchFlights.EmptyAirlinesAdmit | server/src/handlers/search_flights.ts:62-64 | with an empty airline list, a row is admitted exactly when it is admitted with no list |
| SearchFlights.AirlineListRestricts | server/src/handlers/search_flights.ts:62-64 | a non-empty airline list keeps exactly the rows whose airline code is listed |
| SearchFlights.BoundsInclusive | server/src/handlers/search_flights.ts:50-68 | a row passes exactly when it passes with these four bounds removed and lies on or within each bound given: min and max price, max stops and max duration (hours times 60) are inclusive, and an absent one admits everything |
| SearchFlights.WrappingWindowEmpty | server/src/handlers/search_flights.ts:70-77 | a time window whose end is before its start admits no flight |
| SearchFlights.WindowInclusive | server/src/handlers/search_flights.ts:70-77 | with parseable bounds, a flight passes the window exactly when its clock time is between them, both ends included |
| PopularRoutes.JoinRoute | server/src/handlers/get_popular_routes.ts:29-31 | a route gives a row exactly when both of its airport ids resolve |
| PopularRoutes.JoinRoutes | server/src/handlers/get_popular_routes.ts:29-31 | a row is in the join exactly when it is the join of a stored route |
| PopularRoutes.GetPopularRoutes | server/src/handlers/get_popular_routes.ts:7-59 | the joined routes, as a permutation, ordered by non-increasing flight count |
| PopularRoutes.JoinRoutesLength | server/src/handlers/get_popular_routes.ts:29-31 | the join has one row per route whose airports both resolve |
| PopularRoutes.PopularRoutesLength | server/src/handlers/get_popular_routes.ts:10-33 | the result has as many rows as there are joinable stored routes |
| PopularRoutes.AllRoutesListed | server/src/handlers/get_popular_routes.ts:10-33 | when every route's airports exist, every stored route is listed |
| PopularRoutes.NoRoutesNoRows | server/src/handlers/get_popular_routes.ts:10-33 | no stored routes give no rows |
| PopularRoutes.RowFields | server/src/handlers/get_popular_routes.ts:36-54 | each row is a stored route with the airports of its two ids, and carries the route's stored prices, flight count and update time |
| PopularRoutes.JoinableListed | server/src/handlers/get_popular_routes.ts:10-33 | every joinable stored route appears in the result |
| PopularRoutes.IndependentOfFlights | server/src/handlers/get_popular_routes.ts:50-53 | the figures are the stored ones: changing the flights table changes nothing |
| PopularRoutes.JoinRoutesSameTables | server/src/handlers/get_popular_routes.ts:29-31 | the join depends on the routes and the airports only |
| AirportsByCity.GetAirportsByCity | server/src/handlers/get_airports_by_city.ts:7-23 | an airport is returned exactly when it is stored and its city equals the argument, with its multiplicity |
| AirportsByCity.UnknownCityEmpty | server/src/handlers/get_airports_by_city.ts:11 | a city no airport has gives the empty list |
| AirportsByCity.CaseSensitive | server/src/handlers/get_airports_by_city.ts:11 | the comparison is exact: airports in "Paris" are not found under "paris" |
| AirportsByCity.AllCountries | server/src/handlers/get_airports_by_city.ts:11 | same-named cities in different countries are all returned |
| AirportsByCity.FieldsPassedThrough | server/src/handlers/get_airports_by_city.ts:14-18 | every returned airport is a stored row with the requested city |
| SearchForm.Unchecked | client/src/components/FlightSearchForm.tsx:65 | unticking removes every occurrence of the code and keeps every other code as often as before |
| SearchForm.Toggled | client/src/components/FlightSearchForm.tsx:63-65 | ticking appends the code at the end; unticking is the removal above |
| SearchForm.SubmittedFilters | client/src/components/FlightSearchForm.tsx:47-52 | min price is set exactly when the low slider is above 0, max price exactly below 2000, max duration exactly below 24, each to the slider value; the other filters are kept |
| SearchForm.StopsChoice | client/src/components/FlightSearchForm.tsx:244 | `"any"` clears the stops filter, and `"0"`, `"1"`, `"2"` set it to that number |
| SearchForm.SearchForm.constructor | client/src/components/FlightSearchForm.tsx:21-40 | the initial request (empty cities and dates, one passenger, one way, no airline ticked, price ascending) and sliders at 0-2000 and 24 |
| SearchForm.SearchForm.SetOriginCity | client/src/components/FlightSearchForm.tsx:81-82 | only the origin city changes |
| SearchForm.SearchForm.SetDestinationCity | client/src/components/FlightSearchForm.tsx:94-95 | only the destination city changes |
| SearchForm.SearchForm.SetDepartureDate | client/src/components/FlightSearchForm.tsx:108-109 | only the departure date changes |
| SearchForm.SearchForm.SetReturnDate | client/src/components/FlightSearchForm.tsx:180-181 | only the return date changes |
| SearchForm.SearchForm.SetPassengers | client/src/components/FlightSearchForm.tsx:120-121 | only the passenger count changes, and it stays within 1..9 |
| SearchForm.SearchForm.SetTripType | client/src/components/FlightSearchForm.tsx:148-149 | only the trip type changes |
| SearchForm.SearchForm.SetSort | client/src/components/FlightSearchForm.tsx:283-286 | only the sort key changes |
| SearchForm.SearchForm.SetPriceRange | client/src/components/FlightSearchForm.tsx:208 | only the two price-slider values change |
| SearchForm.SearchForm.SetMaxDuration | client/src/components/FlightSearchForm.tsx:266 | only the duration-slider value changes |
| SearchForm.SearchForm.ToggleAirline | client/src/components/FlightSearchForm.tsx:58-68 | only the airline list changes, to the toggled list; an absent list counts as empty |
| SearchForm.SearchForm.SelectMaxStops | client/src/components/FlightSearchForm.tsx:239-246 | only the stops filter changes, to what the chosen option means |
| SearchForm.SearchForm.Submit | client/src/components/FlightSearchForm.tsx:42-56 | the submitted request is the edited one with the slider-driven filters; a valid form submits a request the input schema accepts unchanged |
| SearchForm.UncheckUndoesCheck | client/src/components/FlightSearchForm.tsx:63-65 | unticking a code that was just ticked onto a list without it restores the list |
| SearchForm.UncheckedAppend | client/src/components/FlightSearchForm.tsx:65 | unticking works element by element: it distributes over concatenation, so the order is kept |
| SearchForm.CheckTwiceDuplicates | client/src/components/FlightSearchForm.tsx:64 | ticking twice lists the code twice: there is no duplicate check |
| FlightResults.JsRemainder | client/src/components/FlightResults.tsx:17 | JavaScript `%`: the dividend minus the remainder is a multiple of the divisor; the remainder is the Euclidean one for a non-negative dividend and lies in (-b, 0] for a negative one |
| FlightResults.FormatDuration | client/src/components/FlightResults.tsx:15-19 | for a non-negative duration: hour digits, `h `, two minute digits, `m`, where the hour digits read as the duration divided by 60 and the minute digits as its remainder, below 60 |
| FlightResults.ParseDuration | client/src/components/FlightResults.tsx:15-19 | reads `<digits>h <2 digits>m` with the minute digits below 60; the result is non-negative, its quotient by 60 is the hour digits' value and its remainder the minute digits' value |
| FlightResults.TwoDigits | client/src/components/FlightResults.tsx:18 | the padded minutes are exactly two digits with the minute value |
| FlightResults.ParseComposed | client/src/components/FlightResults.tsx:18 | a text `<digits>h <2 digits>m` reads back as hours times 60 plus minutes |
| FlightResults.ParseFormatDuration | client/src/components/FlightResults.tsx:15-19 | the text of a non-negative duration reads back as that duration |
| FlightResults.FormatDurationInjective | client/src/components/FlightResults.tsx:15-19 | two non-negative durations have the same text only when they are equal |
| FlightResults.FormatDurationExample | client/src/components/FlightResults.tsx:15-19 | 125 minutes read "2h 05m" |
| FlightResults.StopsText | client/src/components/FlightResults.tsx:36-40 | 0 reads "Direct", 1 reads "1 escale", n from 2 up reads "n escales" |
| FlightResults.StopsTextInjective | client/src/components/FlightResults.tsx:36-40 | different non-negative stop counts never read the same |
| FlightResults.PluralSuffix | client/src/components/FlightResults.tsx:65 | the plural mark is "s" exactly when the count exceeds one, and empty otherwise |
| FlightResults.CardFor | client/src/components/FlightResults.tsx:127-165 | a card's duration text reads back as the flight's minutes, its stops text is the stop count's, and its seats text starts with the seat count and ends in `s` exactly when more than one seat is left |
| FlightResults.Cards | client/src/components/FlightResults.tsx:165 | one card per result, in order, each with that result's duration, stops and seats texts |
| FlightResults.ShowResults | client/src/components/FlightResults.tsx:42-184 | the empty state exactly for no results; otherwise the results' cards, one per result in order, the "load more" button exactly from 20 results on, and a heading ending in "s" exactly for more than one result |
| PopularRoutesMap.SortedRoutes | client/src/components/PopularRoutesMap.tsx:13 | a permutation of the routes with non-increasing flight counts |
| PopularRoutesMap.ListedRoutes | client/src/components/PopularRoutesMap.tsx:51 | the first ten of the sorted routes, or all of them when fewer; no left-out route is busier than a listed one |
| PopularRoutesMap.BusierRoutesListed | client/src/components/PopularRoutesMap.tsx:13-51 | a route busier than some listed route is listed itself |
| PopularRoutesMap.OthersNote | client/src/components/PopularRoutesMap.tsx:109-115 | the "others" note is shown exactly for more than ten routes, and the listed routes plus the count in the note are all the routes |
| PopularRoutesMap.LowestMinPrice | client/src/components/PopularRoutesMap.tsx:135 | the lowest minimum price: no route is cheaper, and some route has it |
| PopularRoutesMap.HighestFlightCount | client/src/components/PopularRoutesMap.tsx:141 | the highest flight count: no route exceeds it, and some route has it |
| PopularRoutesMap.CountriesServed | client/src/components/PopularRoutesMap.tsx:147 | the number of distinct origin countries is at least 1 for a non-empty list and at most the number of routes |
| PopularRoutesMap.OriginCountriesBound | client/src/components/PopularRoutesMap.tsx:147 | there are no more distinct origin countries than routes |
| PopularRoutesMap.ShowPopularRoutes | client/src/components/PopularRoutesMap.tsx:15-150 | the empty state exactly for no routes; otherwise the listed routes, the note and the four figures |
| PopularRoutesMap.BusiestFirst | client/src/components/PopularRoutesMap.tsx:13-51 | the first listed route has the highest flight count |
| PopularRoutesMap.HeadIsHighest | client/src/components/PopularRoutesMap.tsx:13 | the head of a sorted permutation has the highest flight count |
| InteractiveRouteMap.Endpoints | client/src/components/InteractiveRouteMap.tsx:94-96 | the visit order of endpoints: two per route |
| InteractiveRouteMap.Count | client/src/components/InteractiveRouteMap.tsx:105-121 | the number of endpoints with a key is at most the number of endpoints, and zero exactly when no endpoint has the key |
| InteractiveRouteMap.FirstWith | client/src/components/InteractiveRouteMap.tsx:98-119 | the first endpoint with a key exists exactly when some endpoint has the key |
| InteractiveRouteMap.FirstKeys | client/src/components/InteractiveRouteMap.tsx:125 | each key that occurs is listed, and listed once |
| InteractiveRouteMap.VisitedOne | client/src/components/InteractiveRouteMap.tsx:98-122 | one more endpoint raises its key's count by one, gives its key a first endpoint if it had none, and appends a new key |
| InteractiveRouteMap.FirstIndex | client/src/components/InteractiveRouteMap.tsx:98-122 | the position of the first endpoint with a key: that endpoint has the key and no earlier one does; the length when none has it |
| InteractiveRouteMap.FirstKeysIndexed | client/src/components/InteractiveRouteMap.tsx:98-122 | a key is listed exactly when some endpoint has it |
| InteractiveRouteMap.FirstKeysInOrder | client/src/components/InteractiveRouteMap.tsx:125 | `Map` insertion order: of two listed keys, the earlier has the earlier first endpoint |
| InteractiveRouteMap.Tally | client/src/components/InteractiveRouteMap.tsx:91-122 | the map the loop fills: the key of the endpoint visited last is in it, and it holds no more markers than there are endpoints |
| InteractiveRouteMap.TallyAt | client/src/components/InteractiveRouteMap.tsx:91-126 | the filled map holds exactly the keys that occur, each with the marker of its first endpoint and the number of endpoints with that key |
| InteractiveRouteMap.Visit | client/src/components/InteractiveRouteMap.tsx:98-122 | one endpoint's visit turns the keys and map built so far into those for one more endpoint |
| InteractiveRouteMap.MarkersOf | client/src/components/InteractiveRouteMap.tsx:125 | `Array.from(cities.values())`: one marker per key, in key insertion order |
| InteractiveRouteMap.CityMarkers | client/src/components/InteractiveRouteMap.tsx:91-126 | one marker per key in first-appearance order, named after the key's first endpoint and counting its endpoints |
| InteractiveRouteMap.SumCountsSnoc | client/src/components/InteractiveRouteMap.tsx:108-121 | one more endpoint raises the summed counts by one exactly when its key is among the keys |
| InteractiveRouteMap.SumCountsAll | client/src/components/InteractiveRouteMap.tsx:91-126 | the counts of all keys add up to the number of endpoints |
| InteractiveRouteMap.MarkerCountsTotal | client/src/components/InteractiveRouteMap.tsx:91-126 | the markers' route counts add up to twice the number of routes |
| InteractiveRouteMap.TotalIsSum | client/src/components/InteractiveRouteMap.tsx:125 | the markers' total is the sum of their keys' counts |
| InteractiveRouteMap.KeysCanCollide | client/src/components/InteractiveRouteMap.tsx:95-96 | two different places can share a `city-country` key and so one marker |
| InteractiveRouteMap.Radius | client/src/components/InteractiveRouteMap.tsx:220 | the marker radius is at most 8, at least 3, and exactly 8 from 10 routes on |
| InteractiveRouteMap.RadiusMonotone | client/src/components/InteractiveRouteMap.tsx:220 | more routes never give a smaller marker |
| InteractiveRouteMap.UnionSize | client/src/components/InteractiveRouteMap.tsx:383-384 | the two sets' sizes add up to the size of their union plus the size of their overlap |
| InteractiveRouteMap.ConnectedCountries | client/src/components/InteractiveRouteMap.tsx:383-384 | the connected-countries figure is the number of distinct countries plus the number that are both an origin and a destination, and at least 2 for any route |
| InteractiveRouteMap.ConnectedCountriesVsDistinct | client/src/components/InteractiveRouteMap.tsx:383-384 | the figure is at least the number of distinct countries, and equal to it exactly when no country is both an origin and a destination |
| InteractiveRouteMap.ShowRouteMap | client/src/components/InteractiveRouteMap.tsx:128-384 | the empty state exactly for no routes; otherwise one marker per key in first-appearance order, each named after its key's first endpoint and counting its endpoints, with counts totalling twice the routes, and the four figures |

## Left out

- Date handling: `new Date(departure_date)` and the next-day step are not modelled. The search takes the day's start instant in minutes as a parameter; None stands for an Invalid Date, which the database refuses. The next midnight is 1440 minutes later, so daylight-saving days are not modelled.
- Time zones: clock times are taken in the same zone as the timestamps.
- `Number` is modelled for the empty text and an optional sign followed by digits. Other numeric forms (decimals, exponents, hex, surrounding spaces) count as NaN.
- Schema.ParseSearchInput: reports only the first failing field, not zod's full list of issues, and ignores unknown keys as zod does.
- Floating point: prices, coordinates and slider values are exact reals, and `parseFloat` of a stored number is the identity.
- A failing query is not modelled in any handler, nor are the log-and-rethrow paths; `RepositoryFailure` stands only for the refused Invalid Date.
- PopularRoutes.GetPopularRoutes: the query is assumed to succeed, so its error path is not modelled.
- The list orders are not claimed to be stable. The JavaScript sort in the panel is stable, and SQL `ORDER BY` is not.
- SearchForm.SearchForm.SetPassengers: requires 1..9, the counts the passenger select offers.
- SearchForm.SearchForm.SelectMaxStops: requires one of the four options the select offers.
- Rendering is not modelled: map projection, arc paths, route colour and thickness, hover and selection state, and the locale formatting of times and dates.
- The application shell and the tab switching are not modelled.
- The airport and airline listing handlers, the seed data, the server's routing and the database table definitions are not part of this model.
- The `airports` column types (latitude, longitude) are reals, and the `toString`/`parseFloat` pass-through of `getAirportsByCity` is the identity.
