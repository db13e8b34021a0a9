/**
 * The actions bar of one booking on the guest page
 * (`src/features/guests/GuestBookingActions.jsx`). Its status tag is the
 * booking page's, BookingDetail.TagText.
 */
module GuestBookingActions {
  import opened BookingStatus
  import BookingDetail

  /** The buttons in order: details always, then check in, delete and check out when the status permits. */
  function Actions(status: string): (acts: seq<Action>)
    ensures |acts| >= 1 && acts[0] == Details
    ensures CheckIn in acts <==> status == Unconfirmed
    ensures Delete in acts <==> status != CheckedIn
    ensures CheckOut in acts <==> status == CheckedIn
    ensures status == CheckedOut ==> acts == [Details, Delete]
  {
    [Details] +
    (if status == Unconfirmed then [CheckIn] else []) +
    (if status != CheckedIn then [Delete] else []) +
    (if status == CheckedIn then [CheckOut] else [])
  }

  /** The bar offers exactly what the lifecycle allows. */
  lemma ActionsFollowLifecycle(status: string, a: Action)
    ensures a in Actions(status) <==> Allows(status, a)
  {
  }

  /** Apart from the details link, the guest page and the booking page offer the same actions. */
  lemma SameActionsAsBookingPage(status: string, a: Action)
    requires a != Details
    ensures a in Actions(status) <==> a in BookingDetail.Actions(status)
  {
  }
}
