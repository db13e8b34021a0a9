/**
 * The booking lifecycle the views share: a booking is `unconfirmed` when
 * created without checking in, `checked-in` once the guest arrives, and
 * `checked-out` once they leave. The status is an arbitrary string in the
 * database; any other value is a status none of the rules single out.
 */
module BookingStatus {

  const Unconfirmed: string := "unconfirmed"
  const CheckedIn: string := "checked-in"
  const CheckedOut: string := "checked-out"

  /** What a view can offer for one booking. */
  datatype Action = Details | CheckIn | CheckOut | Delete

  /**
   * The lifecycle rule: check in only an unconfirmed booking, check out only
   * a checked-in one, never delete a booking while its guest is checked in.
   */
  function Allows(status: string, a: Action): (allowed: bool)
    ensures status == Unconfirmed ==> (allowed <==> !a.CheckOut?)
    ensures status == CheckedIn ==> (allowed <==> a.Details? || a.CheckOut?)
    ensures status == CheckedOut ==> (allowed <==> a.Details? || a.Delete?)
    ensures !(allowed && a.CheckOut? && status != CheckedIn)
  {
    match a
    case Details => true
    case CheckIn => status == Unconfirmed
    case CheckOut => status == CheckedIn
    case Delete => status != CheckedIn
  }

  /** The status a newly created booking gets: checked in when the guest is checking in now. */
  function InitialStatus(checkingIn: bool): (s: string)
    ensures s == CheckedIn <==> checkingIn
    ensures s == Unconfirmed <==> !checkingIn
    ensures Allows(s, CheckIn) != Allows(s, CheckOut)
  {
    if checkingIn then CheckedIn else Unconfirmed
  }
}
