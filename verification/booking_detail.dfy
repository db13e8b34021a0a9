/**
 * The booking detail page (`src/features/bookings/BookingDetail.jsx`): the
 * status tag and the buttons offered for the booking.
 */
module BookingDetail {
  import opened Text
  import opened BookingStatus

  /** The tag text: the status with its first '-' replaced by a space. */
  function TagText(status: string): (t: string)
    ensures |t| == |status|
    ensures '-' !in status ==> t == status
  {
    ReplaceFirst(status, '-', ' ')
  }

  /** A status made of two words joined by a dash shows as the two words joined by a space. */
  lemma TwoWordTag(first: string, second: string)
    requires '-' !in first
    ensures TagText(first + "-" + second) == first + " " + second
  {
    ReplaceFirstAt(first, '-', second, ' ');
  }

  /** The page's action buttons after Back, in order: check in, check out, delete, each when the status permits it. */
  function Actions(status: string): (acts: seq<Action>)
    ensures CheckIn in acts <==> status == Unconfirmed
    ensures CheckOut in acts <==> status == CheckedIn
    ensures Delete in acts <==> status != CheckedIn
    ensures Details !in acts
    ensures !(CheckOut in acts && Delete in acts)
  {
    (if status == Unconfirmed then [CheckIn] else []) +
    (if status == CheckedIn then [CheckOut] else []) +
    (if status != CheckedIn then [Delete] else [])
  }

  /** The page offers exactly the lifecycle actions the status allows. */
  lemma ActionsFollowLifecycle(status: string, a: Action)
    requires a != Details
    ensures a in Actions(status) <==> Allows(status, a)
  {
  }
}
