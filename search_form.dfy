/** The state behind the search form: the request being edited, the two
    price-slider values and the duration-slider value. Each handler replaces
    part of that state; submitting turns the slider values into filters, with
    each slider's end value meaning "no limit". */
module SearchForm {
  import opened Options
  import opened Text
  import opened Schema
  import opened Sequences

  /** The slider ends that stand for an absent filter. */
  const PriceSliderMax: real := 2000.0
  const DurationSliderMax: real := 24.0

  /** The airline list with every occurrence of `code` removed, the others
      kept in order. */
  function Unchecked(codes: seq<string>, code: string): (r: seq<string>)
    ensures code !in r
    ensures forall c :: c != code ==> multiset(r)[c] == multiset(codes)[c]
  {
    Filter(codes, c => c != code)
  }

  /** The airline list after the checkbox for `code` is set to `checked`. */
  function Toggled(codes: seq<string>, code: string, checked: bool): (r: seq<string>)
    ensures checked ==> r == codes + [code]
    ensures !checked ==> r == Unchecked(codes, code)
  {
    if checked then codes + [code] else Unchecked(codes, code)
  }

  /** The filters a submission sends: the edited filters, with the three
      slider-driven fields set from the sliders. */
  function SubmittedFilters(f: Filters, priceLow: real, priceHigh: real, maxDuration: real): (r: Filters)
    ensures r.minPrice.Some? <==> priceLow > 0.0
    ensures r.maxPrice.Some? <==> priceHigh < PriceSliderMax
    ensures r.maxDurationHours.Some? <==> maxDuration < DurationSliderMax
    ensures r.minPrice.Some? ==> r.minPrice.value == priceLow
    ensures r.maxPrice.Some? ==> r.maxPrice.value == priceHigh
    ensures r.maxDurationHours.Some? ==> r.maxDurationHours.value == maxDuration
    ensures r.maxStops == f.maxStops && r.airlines == f.airlines
    ensures r.departureTimeRange == f.departureTimeRange
  {
    f.(minPrice := if priceLow > 0.0 then Some(priceLow) else None,
       maxPrice := if priceHigh < PriceSliderMax then Some(priceHigh) else None,
       maxDurationHours := if maxDuration < DurationSliderMax then Some(maxDuration) else None)
  }

  /** The values the stops select offers. */
  predicate StopsOption(choice: string) {
    choice == "any" || choice == "0" || choice == "1" || choice == "2"
  }

  /** `value === 'any' ? undefined : parseInt(value)`: "any" clears the
      filter and a digit sets it to that number. */
  function StopsChoice(choice: string): (stops: Option<int>)
    requires StopsOption(choice)
    ensures choice == "any" <==> stops == None
    ensures choice == "0" ==> stops == Some(0)
    ensures choice == "1" ==> stops == Some(1)
    ensures choice == "2" ==> stops == Some(2)
  {
    if choice == "any" then None
    else
      assert choice[..|choice| - 1] == [];
      assert DigitsValue(choice) == DigitValue(choice[0]);
      Some(DigitsValue(choice))
  }

  class SearchForm {
    var searchData: SearchInput
    var priceLow: real
    var priceHigh: real
    var maxDuration: real

    /** Passenger counts come from a select offering 1 to 9. */
    predicate Valid()
      reads this
    {
      ValidInput(searchData)
    }

    /** The form's first state: empty cities and dates, one passenger, one
        way, price ascending, no airline ticked and no other filter; the price
        slider spans 0 to 2000 and the duration slider stands at 24. */
    constructor ()
      ensures Valid()
      ensures searchData == SearchInput("", "", "", Some(""), 1, OneWay,
        Some(Filters(None, None, None, Some([]), None, None)), Some(PriceAsc))
      ensures priceLow == 0.0 && priceHigh == PriceSliderMax && maxDuration == DurationSliderMax
    {
      searchData := SearchInput("", "", "", Some(""), 1, OneWay,
        Some(Filters(None, None, None, Some([]), None, None)), Some(PriceAsc));
      priceLow := 0.0;
      priceHigh := PriceSliderMax;
      maxDuration := DurationSliderMax;
    }

    method SetOriginCity(city: string)
      requires Valid()
      modifies this
      ensures Valid()
      ensures searchData == old(searchData).(originCity := city)
      ensures priceLow == old(priceLow) && priceHigh == old(priceHigh) && maxDuration == old(maxDuration)
    {
      searchData := searchData.(originCity := city);
    }

    method SetDestinationCity(city: string)
      requires Valid()
      modifies this
      ensures Valid()
      ensures searchData == old(searchData).(destinationCity := city)
      ensures priceLow == old(priceLow) && priceHigh == old(priceHigh) && maxDuration == old(maxDuration)
    {
      searchData := searchData.(destinationCity := city);
    }

    method SetDepartureDate(date: string)
      requires Valid()
      modifies this
      ensures Valid()
      ensures searchData == old(searchData).(departureDate := date)
      ensures priceLow == old(priceLow) && priceHigh == old(priceHigh) && maxDuration == old(maxDuration)
    {
      searchData := searchData.(departureDate := date);
    }

    method SetReturnDate(date: string)
      requires Valid()
      modifies this
      ensures Valid()
      ensures searchData == old(searchData).(returnDate := Some(date))
      ensures priceLow == old(priceLow) && priceHigh == old(priceHigh) && maxDuration == old(maxDuration)
    {
      searchData := searchData.(returnDate := Some(date));
    }

    /** The passenger select offers the counts 1 to 9. */
    method SetPassengers(count: int)
      requires Valid() && 1 <= count <= 9
      modifies this
      ensures Valid()
      ensures searchData == old(searchData).(passengers := count)
      ensures priceLow == old(priceLow) && priceHigh == old(priceHigh) && maxDuration == old(maxDuration)
    {
      searchData := searchData.(passengers := count);
    }

    method SetTripType(tripType: TripType)
      requires Valid()
      modifies this
      ensures Valid()
      ensures searchData == old(searchData).(tripType := tripType)
      ensures priceLow == old(priceLow) && priceHigh == old(priceHigh) && maxDuration == old(maxDuration)
    {
      searchData := searchData.(tripType := tripType);
    }

    method SetSort(key: SortKey)
      requires Valid()
      modifies this
      ensures Valid()
      ensures searchData == old(searchData).(sort := Some(key))
      ensures priceLow == old(priceLow) && priceHigh == old(priceHigh) && maxDuration == old(maxDuration)
    {
      searchData := searchData.(sort := Some(key));
    }

    /** Moving the price slider changes the two slider values only. */
    method SetPriceRange(low: real, high: real)
      requires Valid()
      modifies this
      ensures Valid()
      ensures priceLow == low && priceHigh == high
      ensures searchData == old(searchData) && maxDuration == old(maxDuration)
    {
      priceLow, priceHigh := low, high;
    }

    /** Moving the duration slider changes its value only. */
    method SetMaxDuration(hours: real)
      requires Valid()
      modifies this
      ensures Valid()
      ensures maxDuration == hours
      ensures searchData == old(searchData) && priceLow == old(priceLow) && priceHigh == old(priceHigh)
    {
      maxDuration := hours;
    }

    /** `handleAirlineFilter`: ticking appends the code at the end of the list
        (no duplicate check), unticking removes every occurrence; an absent
        list counts as empty. Nothing but the airline list changes. */
    method ToggleAirline(code: string, checked: bool)
      requires Valid()
      modifies this
      ensures Valid()
      ensures var f := old(searchData).filters.GetOr(NoFilters);
        searchData == old(searchData).(filters := Some(f.(airlines := Some(Toggled(f.airlines.GetOr([]), code, checked)))))
      ensures priceLow == old(priceLow) && priceHigh == old(priceHigh) && maxDuration == old(maxDuration)
    {
      var f := searchData.filters.GetOr(NoFilters);
      var codes := f.airlines.GetOr([]);
      var updated := if checked then codes + [code] else Unchecked(codes, code);
      searchData := searchData.(filters := Some(f.(airlines := Some(updated))));
    }

    /** The stops select: picking an option sets the stops filter to what
        the option means and changes nothing else. */
    method SelectMaxStops(choice: string)
      requires Valid() && StopsOption(choice)
      modifies this
      ensures Valid()
      ensures var f := old(searchData).filters.GetOr(NoFilters);
        searchData == old(searchData).(filters := Some(f.(maxStops := StopsChoice(choice))))
      ensures priceLow == old(priceLow) && priceHigh == old(priceHigh) && maxDuration == old(maxDuration)
    {
      var f := searchData.filters.GetOr(NoFilters);
      searchData := searchData.(filters := Some(f.(maxStops := StopsChoice(choice))));
    }

    /** `handleSubmit`: the request handed to the search, with min price set
        only above 0, max price only below 2000 and max duration only below
        24 hours; every other field is the edited one. A valid form always
        submits a request the input schema accepts unchanged. */
    method Submit() returns (input: SearchInput)
      ensures input.filters.Some?
      ensures input.filters.value.minPrice == (if priceLow > 0.0 then Some(priceLow) else None)
      ensures input.filters.value.maxPrice == (if priceHigh < PriceSliderMax then Some(priceHigh) else None)
      ensures input.filters.value.maxDurationHours ==
        (if maxDuration < DurationSliderMax then Some(maxDuration) else None)
      ensures var f := searchData.filters.GetOr(NoFilters);
        && input.filters.value.maxStops == f.maxStops
        && input.filters.value.airlines == f.airlines
        && input.filters.value.departureTimeRange == f.departureTimeRange
      ensures input.(filters := searchData.filters) == searchData
      ensures Valid() ==> ParseSearchInput(EncodeSearchInput(input)) == Ok(input)
    {
      var f := SubmittedFilters(searchData.filters.GetOr(NoFilters), priceLow, priceHigh, maxDuration);
      input := searchData.(filters := Some(f));
      if Valid() {
        ParseEncode(input);
      }
    }
  }

  // ------------------------------------------------------------ properties

  /** Unticking a code that was just ticked onto a list without it restores
      the list. */
  lemma {:induction false} UncheckUndoesCheck(codes: seq<string>, code: string)
    requires code !in codes
    ensures Toggled(Toggled(codes, code, true), code, false) == codes
  {
    if codes != [] {
      assert (codes + [code])[1..] == codes[1..] + [code];
      UncheckUndoesCheck(codes[1..], code);
      assert codes == [codes[0]] + codes[1..];
    } else {
      assert Filter([code], c => c != code) == [];
    }
  }

  /** Unticking works element by element, so the codes kept stay in their
      order: it distributes over concatenation. */
  lemma {:induction false} UncheckedAppend(a: seq<string>, b: seq<string>, code: string)
    ensures Unchecked(a + b, code) == Unchecked(a, code) + Unchecked(b, code)
  {
    if a == [] {
      assert a + b == b;
    } else {
      assert (a + b)[1..] == a[1..] + b;
      UncheckedAppend(a[1..], b, code);
    }
  }

  /** Ticking twice lists the code twice: there is no duplicate check. */
  lemma CheckTwiceDuplicates(codes: seq<string>, code: string)
    ensures multiset(Toggled(Toggled(codes, code, true), code, true))[code] == multiset(codes)[code] + 2
  {
  }
}
