/**
 * One line of today's activity list (`src/features/check-in-out/TodayItem.jsx`):
 * arriving guests can be checked in, departing guests checked out.
 */
module TodayItem {
  import opened Wrappers
  import opened BookingStatus

  datatype Tag = Arriving | Departing

  /** The tag: arriving for an unconfirmed booking, departing for a checked-in one. */
  function TagOf(status: string): (t: Option<Tag>)
    ensures t == Some(Arriving) <==> status == Unconfirmed
    ensures t == Some(Departing) <==> status == CheckedIn
  {
    if status == Unconfirmed then Some(Arriving)
    else if status == CheckedIn then Some(Departing)
    else None
  }

  /** The button: check in for an unconfirmed booking, check out for a checked-in one. */
  function ActionOf(status: string): (a: Option<Action>)
    ensures a == Some(CheckIn) <==> status == Unconfirmed
    ensures a == Some(CheckOut) <==> status == CheckedIn
  {
    if status == Unconfirmed then Some(CheckIn)
    else if status == CheckedIn then Some(CheckOut)
    else None
  }

  /** The tag and the button go together, and the button is one the lifecycle allows. */
  lemma TagMatchesAction(status: string)
    ensures TagOf(status).None? <==> ActionOf(status).None?
    ensures TagOf(status) == Some(Arriving) <==> ActionOf(status) == Some(CheckIn)
    ensures ActionOf(status).Some? ==> Allows(status, ActionOf(status).value)
    ensures status != Unconfirmed && status != CheckedIn ==> TagOf(status).None? && ActionOf(status).None?
  {
  }
}
