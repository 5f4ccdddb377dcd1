/** The text the results list shows: durations as "<h>h <mm>m", stop counts in
    French, the plural "s" after counts above one, the empty state for no
    results and the "load more" button from twenty results on. */
module FlightResults {
  import opened Options
  import opened Text
  import opened Schema

  /** JavaScript's `%`: the remainder takes the sign of the dividend. */
  function JsRemainder(a: int, b: int): (r: int)
    requires b > 0
    ensures a >= 0 ==> r == a % b
    ensures a < 0 ==> -b < r <= 0
    ensures (a - r) % b == 0
  {
    if a >= 0 then
      assert a - a % b == (a / b) * b;
      MultipleRemainder(a / b, b);
      a % b
    else
      var q, m := (-a) / b, (-a) % b;
      assert -a == q * b + m;
      assert a + m == (-q) * b;
      MultipleRemainder(-q, b);
      -m
  }

  /** A multiple of `b` leaves no remainder. */
  lemma MultipleRemainder(k: int, b: int)
    requires b > 0
    ensures (k * b) % b == 0
  {
    var x := k * b;
    var d := x / b - k;
    assert x % b == x - (x / b) * b;
    assert x % b == -d * b;
  }

  /** `formatDuration`: whole hours by `Math.floor(minutes / 60)` (for a
      positive divisor Dafny's `/` is that floor), the remaining minutes by
      JavaScript's `%`, padded on the left to two characters. For a
      non-negative duration the text is the hour digits, "h ", two minute
      digits and "m"; the hour digits read as the duration divided by 60 and
      the minute digits as its remainder, which is below 60. */
  function FormatDuration(minutes: int): (s: string)
    ensures minutes >= 0 ==>
      && |s| >= 6 && s[|s| - 1] == 'm' && s[|s| - 5..|s| - 3] == "h "
      && AllDigits(s[..|s| - 5]) && DigitsValue(s[..|s| - 5]) == minutes / 60
      && AllDigits(s[|s| - 3..|s| - 1]) && DigitsValue(s[|s| - 3..|s| - 1]) == minutes % 60
  {
    var s := IntToString(minutes / 60) + "h " + PadStart2(IntToString(JsRemainder(minutes, 60))) + "m";
    assert minutes >= 0 ==> s == NatToString(minutes / 60) + "h " + PadStart2(NatToString(minutes % 60)) + "m";
    if minutes >= 0 then RenderedPieces(minutes / 60, minutes % 60); s else s
  }

  /** Hours and minutes below 60, written out, sit where a reader looks for
      them and read back as themselves. */
  lemma RenderedPieces(h: nat, mm: nat)
    requires mm < 60
    ensures var s := NatToString(h) + "h " + PadStart2(NatToString(mm)) + "m";
      && |s| >= 6 && s[|s| - 1] == 'm' && s[|s| - 5..|s| - 3] == "h "
      && AllDigits(s[..|s| - 5]) && DigitsValue(s[..|s| - 5]) == h
      && AllDigits(s[|s| - 3..|s| - 1]) && DigitsValue(s[|s| - 3..|s| - 1]) == mm
  {
    TwoDigits(mm);
    NatToStringRoundTrip(h);
    ComposedPieces(NatToString(h), PadStart2(NatToString(mm)));
  }

  /** Reads a duration text back: hour digits, "h ", two minute digits below
      60, "m". The hour digits are the whole hours and the minute digits the
      remainder. */
  function ParseDuration(s: string): (r: Option<int>)
    ensures r.Some? ==> r.value >= 0
    ensures r.Some? ==>
      && |s| >= 6 && AllDigits(s[..|s| - 5]) && AllDigits(s[|s| - 3..|s| - 1])
      && r.value / 60 == DigitsValue(s[..|s| - 5]) && r.value % 60 == DigitsValue(s[|s| - 3..|s| - 1])
  {
    if |s| >= 6 && s[|s| - 1] == 'm' && s[|s| - 5..|s| - 3] == "h "
       && AllDigits(s[..|s| - 5]) && AllDigits(s[|s| - 3..|s| - 1])
       && DigitsValue(s[|s| - 3..|s| - 1]) < 60
    then Some(DigitsValue(s[..|s| - 5]) * 60 + DigitsValue(s[|s| - 3..|s| - 1]))
    else None
  }

  /** Two digits of a number below 100, as `padStart(2, '0')` leaves them. */
  lemma TwoDigits(mm: nat)
    requires mm < 60
    ensures |PadStart2(NatToString(mm))| == 2
    ensures AllDigits(PadStart2(NatToString(mm)))
    ensures DigitsValue(PadStart2(NatToString(mm))) == mm
  {
    var t := NatToString(mm);
    var p := PadStart2(t);
    NatToStringRoundTrip(mm);
    if mm < 10 {
      assert p == ['0'] + t;
      assert p[..1] == "0" && p[..1][..0] == [];
      assert DigitsValue(p[..1]) == 0;
    } else {
      assert |t| == 2;
    }
  }

  /** Where the pieces of a text of the rendered shape sit. */
  lemma ComposedPieces(hs: string, ms: string)
    requires |hs| >= 1 && |ms| == 2
    ensures var s := hs + "h " + ms + "m";
      && |s| >= 6 && s[|s| - 1] == 'm' && s[|s| - 5..|s| - 3] == "h "
      && s[..|s| - 5] == hs && s[|s| - 3..|s| - 1] == ms
  {
    var s := hs + "h " + ms + "m";
    assert |s| == |hs| + 5;
  }

  /** A text of the rendered shape reads back as hours times 60 plus minutes. */
  lemma ParseComposed(hs: string, ms: string)
    requires |hs| >= 1 && AllDigits(hs) && |ms| == 2 && AllDigits(ms) && DigitsValue(ms) < 60
    ensures ParseDuration(hs + "h " + ms + "m") == Some(DigitsValue(hs) * 60 + DigitsValue(ms))
  {
    ComposedPieces(hs, ms);
  }

  /** Reading back a rendered non-negative duration gives the minutes again. */
  lemma ParseFormatDuration(minutes: int)
    requires minutes >= 0
    ensures ParseDuration(FormatDuration(minutes)) == Some(minutes)
  {
    var s := FormatDuration(minutes);
    assert DigitsValue(s[..|s| - 5]) * 60 + DigitsValue(s[|s| - 3..|s| - 1]) == minutes;
  }

  /** Two non-negative durations render alike only when they are equal. */
  lemma FormatDurationInjective(a: int, b: int)
    requires a >= 0 && b >= 0 && FormatDuration(a) == FormatDuration(b)
    ensures a == b
  {
    ParseFormatDuration(a);
    ParseFormatDuration(b);
  }

  /** The text for 125 minutes. */
  lemma FormatDurationExample()
    ensures FormatDuration(125) == "2h 05m"
  {
    assert NatToString(2) == "2";
    assert NatToString(5) == "5";
  }

  /** `getStopsText`. */
  function StopsText(stops: int): (s: string)
    ensures stops == 0 ==> s == "Direct"
    ensures stops == 1 ==> s == "1 escale"
    ensures stops >= 2 ==> s == NatToString(stops) + " escales"
  {
    if stops == 0 then "Direct"
    else if stops == 1 then "1 escale"
    else IntToString(stops) + " escales"
  }

  /** Different non-negative stop counts never read the same. */
  lemma StopsTextInjective(a: nat, b: nat)
    requires StopsText(a) == StopsText(b)
    ensures a == b
  {
    if a >= 2 && b >= 2 {
      var sa := NatToString(a);
      var sb := NatToString(b);
      assert StopsText(a)[..|sa|] == sa;
      assert |StopsText(a)| == |sa| + 8 && |StopsText(b)| == |sb| + 8;
      assert sa == StopsText(b)[..|sb|] == sb;
      NatToStringRoundTrip(a);
      NatToStringRoundTrip(b);
    }
  }

  /** The plural mark after a count: "s" exactly when the count exceeds one. */
  function PluralSuffix(count: int): (s: string)
    ensures s == "s" <==> count > 1
    ensures s == "" <==> count <= 1
  {
    if count > 1 then "s" else ""
  }

  /** One result card's computed texts. */
  datatype Card = Card(duration: string, stops: string, seats: string)

  /** What the list shows: the empty state, or the heading, one card per
      result and possibly the "load more" button. */
  datatype ResultsView =
    | EmptyState
    | Listing(heading: string, cards: seq<Card>, loadMore: bool)

  /** From this many results on, the "load more" button is offered. */
  const PageSize := 20

  /** A card's texts: the duration reads back as the flight's minutes, the
      stops text is the stop count's, and the seats text starts with the seat
      count and ends in the plural mark exactly when more than one is left. */
  function CardFor(r: FlightSearchResult): (c: Card)
    ensures r.durationMinutes >= 0 ==> ParseDuration(c.duration) == Some(r.durationMinutes)
    ensures c.stops == StopsText(r.stops)
    ensures |c.seats| > |IntToString(r.availableSeats)|
    ensures c.seats[..|IntToString(r.availableSeats)|] == IntToString(r.availableSeats)
    ensures c.seats[|c.seats| - 1] == 's' <==> r.availableSeats > 1
  {
    var n := IntToString(r.availableSeats);
    var seats := n + " place" + PluralSuffix(r.availableSeats) + " restante" + PluralSuffix(r.availableSeats);
    assert seats[..|n|] == n;
    assert seats[|seats| - 1] == if r.availableSeats > 1 then 's' else 'e';
    assert r.durationMinutes >= 0 ==> ParseDuration(FormatDuration(r.durationMinutes)) == Some(r.durationMinutes) by {
      if r.durationMinutes >= 0 {
        ParseFormatDuration(r.durationMinutes);
      }
    }
    Card(FormatDuration(r.durationMinutes), StopsText(r.stops), seats)
  }

  function Cards(results: seq<FlightSearchResult>): (cards: seq<Card>)
    ensures |cards| == |results|
    ensures forall i :: 0 <= i < |results| ==> cards[i] == CardFor(results[i])
  {
    if results == [] then [] else [CardFor(results[0])] + Cards(results[1..])
  }

  /** The component's two branches and its thresholds. */
  function ShowResults(results: seq<FlightSearchResult>): (v: ResultsView)
    ensures v.EmptyState? <==> |results| == 0
    ensures v.Listing? ==> (v.loadMore <==> |results| >= PageSize)
    ensures v.Listing? ==> |v.cards| == |results| && v.cards == Cards(results)
    ensures v.Listing? ==> |v.heading| >= 1
    ensures v.Listing? ==> (v.heading[|v.heading| - 1] == 's' <==> |results| > 1)
  {
    if |results| == 0 then EmptyState
    else
      var n := |results|;
      var heading := NatToString(n) + " vol" + PluralSuffix(n) + " trouvé" + PluralSuffix(n);
      assert heading[|heading| - 1] == if n > 1 then 's' else 'é';
      Listing(heading, Cards(results), n >= PageSize)
  }
}
