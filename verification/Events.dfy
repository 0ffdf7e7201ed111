/** The kernel's event object as its users see it: at most one notification is
    pending, and of two notifications the earlier one survives.
 */
module Events {

  datatype Notification = Idle | Delta | Timed(at: nat)

  /** `sc_event::notify(when)` at time `now`; a zero delay means the next delta cycle. */
  function NotifyAfter(e: Notification, now: nat, when: nat): (r: Notification)
    ensures r.Delta? <==> e.Delta? || when == 0
    ensures r.Timed? ==> r.at <= now + when && (e.Timed? ==> r.at <= e.at)
    ensures r.Timed? ==> r.at == now + when || r == e
    ensures !r.Idle?
  {
    if e.Delta? || when == 0 then Delta
    else if e.Timed? && e.at <= now + when then e
    else Timed(now + when)
  }
}
