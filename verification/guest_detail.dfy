/**
 * The guest page (`src/features/guests/GuestDetail.jsx`): the guest's
 * spending over all bookings, and the tag that counts the bookings.
 */
module GuestDetail {
  import opened Text

  /** The prices of one booking of the guest. */
  datatype BookingPrices = BookingPrices(extrasPrice: int, cabinPrice: int)

  /** `bookings.reduce((acc, cur) => acc + cur.extrasPrice, 0)`, left to right. */
  function TotalExtrasPrice(bookings: seq<BookingPrices>): (total: int)
    ensures (forall i :: 0 <= i < |bookings| ==> bookings[i].extrasPrice >= 0) ==> total >= 0
  {
    if bookings == [] then 0
    else TotalExtrasPrice(bookings[..|bookings| - 1]) + bookings[|bookings| - 1].extrasPrice
  }

  /** `bookings.reduce((acc, cur) => acc + cur.cabinPrice, 0)`, left to right. */
  function TotalCabinPrice(bookings: seq<BookingPrices>): (total: int)
    ensures (forall i :: 0 <= i < |bookings| ==> bookings[i].cabinPrice >= 0) ==> total >= 0
  {
    if bookings == [] then 0
    else TotalCabinPrice(bookings[..|bookings| - 1]) + bookings[|bookings| - 1].cabinPrice
  }

  /** What one booking cost in all. */
  function Spent(b: BookingPrices): int { b.extrasPrice + b.cabinPrice }

  /** The bookings' total cost, summed from the front. */
  function SumSpent(bookings: seq<BookingPrices>): int {
    if bookings == [] then 0 else Spent(bookings[0]) + SumSpent(bookings[1..])
  }

  lemma {:induction false} SumSpentAppend(a: seq<BookingPrices>, b: BookingPrices)
    ensures SumSpent(a + [b]) == SumSpent(a) + Spent(b)
  {
    if a != [] {
      assert (a + [b])[1..] == a[1..] + [b];
      SumSpentAppend(a[1..], b);
    } else {
      assert a + [b] == [b];
    }
  }

  /** "Total Spent", the extras total plus the cabin total, is what the bookings cost, each counted once. */
  lemma {:induction false} TotalSpentIsSumOfBookings(bookings: seq<BookingPrices>)
    ensures TotalExtrasPrice(bookings) + TotalCabinPrice(bookings) == SumSpent(bookings)
  {
    if bookings != [] {
      var front := bookings[..|bookings| - 1];
      TotalSpentIsSumOfBookings(front);
      SumSpentAppend(front, bookings[|bookings| - 1]);
      assert front + [bookings[|bookings| - 1]] == bookings;
    }
  }

  /** Each booking added adds its own prices to the two totals. */
  lemma {:induction false} TotalsGrow(bookings: seq<BookingPrices>, b: BookingPrices)
    ensures TotalExtrasPrice(bookings + [b]) == TotalExtrasPrice(bookings) + b.extrasPrice
    ensures TotalCabinPrice(bookings + [b]) == TotalCabinPrice(bookings) + b.cabinPrice
  {
    assert (bookings + [b])[..|bookings + [b]| - 1] == bookings;
  }

  /** The colours of the booking-count tag. */
  datatype TagColor = Silver | Yellow | Blue | Indigo | Green

  /** `bookingsToTagName[n]` for up to three bookings, green above. */
  function TagColorOf(count: nat): (c: TagColor)
    ensures c == Green <==> count > 3
    ensures count == 0 <==> c == Silver
    ensures count == 1 <==> c == Yellow
    ensures count == 2 <==> c == Blue
    ensures count == 3 <==> c == Indigo
  {
    if count <= 3 then [Silver, Yellow, Blue, Indigo][count] else Green
  }

  /**
   * The tag's text: "No bookings" for none, "n bookings" for one to three,
   * and "(n - 1)+ bookings" above three; exactly one of the three applies.
   */
  function TagLabel(count: nat): (text: string)
  {
    (if count == 0 then "No bookings" else "")
    + (if count > 0 && count <= 3 then NatToDecimal(count) + " bookings" else "")
    + (if count > 3 then NatToDecimal(count - 1) + "+ bookings" else "")
  }

  /** The tag text names the count for one to three bookings, and one less than the count above that. */
  lemma TagLabelCases(count: nat)
    ensures count == 0 ==> TagLabel(count) == "No bookings"
    ensures 1 <= count <= 3 ==> TagLabel(count) == NatToDecimal(count) + " bookings"
    ensures count > 3 ==> TagLabel(count) == NatToDecimal(count - 1) + "+ bookings"
  {
    if count == 0 {
      assert "No bookings" + "" + "" == "No bookings";
    } else if count <= 3 {
      assert "" + (NatToDecimal(count) + " bookings") + "" == NatToDecimal(count) + " bookings";
    } else {
      assert "" + "" + (NatToDecimal(count - 1) + "+ bookings") == NatToDecimal(count - 1) + "+ bookings";
    }
  }

  /** The "Money spent" section is shown only for a guest with at least one booking. */
  predicate ShowsMoneySpent(bookings: seq<BookingPrices>) {
    |bookings| > 0
  }

  /** Without bookings there is nothing to show: every total is zero. */
  lemma {:induction false} NoBookingsSpendNothing(bookings: seq<BookingPrices>)
    requires !ShowsMoneySpent(bookings)
    ensures TotalExtrasPrice(bookings) == 0 && TotalCabinPrice(bookings) == 0
  {
  }
}
