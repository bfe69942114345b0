/** The kitchen order card of `src/components/kds/OrderCard.tsx`: the
    next-status table, the elapsed-time label and the urgency thresholds.
    The clock is an input. */
module OrderCard {
  import opened Wrappers
  import opened Text
  import opened Types

  /** `getNextStatus`: the one forward step the kitchen can take. */
  function NextStatus(s: OrderStatus): (r: Option<OrderStatus>)
    ensures r.Some? <==> s == Confirmed || s == Making || s == Ready
    ensures r.Some? ==> r.value != Pending && r.value != Confirmed && r.value != Cancelled
  {
    match s
    case Confirmed => Some(Making)
    case Making => Some(Ready)
    case Ready => Some(Delivered)
    case _ => None
  }

  /** Applies `NextStatus` up to `n` times, stopping where there is none. */
  function Advance(s: OrderStatus, n: nat): OrderStatus
    decreases n
  {
    if n == 0 then s
    else match NextStatus(s)
      case None => s
      case Some(t) => Advance(t, n - 1)
  }

  lemma {:induction false} AdvanceFromStop(s: OrderStatus, n: nat)
    requires NextStatus(s).None?
    ensures Advance(s, n) == s
  {
  }

  /** From `confirmed` the kitchen reaches `delivered` in exactly three steps
      and then stops there. */
  lemma ConfirmedReachesDelivered(n: nat)
    ensures Advance(Confirmed, 1) == Making && Advance(Confirmed, 2) == Ready
    ensures n >= 3 ==> Advance(Confirmed, n) == Delivered
  {
    if n >= 3 {
      assert Advance(Confirmed, n) == Advance(Making, n - 1);
      assert Advance(Making, n - 1) == Advance(Ready, n - 2);
      assert Advance(Ready, n - 2) == Advance(Delivered, n - 3);
      AdvanceFromStop(Delivered, n - 3);
    }
  }

  // ---------------------------------------------------------------------------
  // Elapsed time

  const MillisPerMinute: int := 1000 * 60

  /** `Math.floor((now - created) / 60000)`. */
  function ElapsedMinutes(nowMillis: int, createdMillis: int): (m: int)
    ensures m * MillisPerMinute <= nowMillis - createdMillis < (m + 1) * MillisPerMinute
  {
    (nowMillis - createdMillis) / MillisPerMinute
  }

  /** The label `getTimeElapsed` shows for a whole number of minutes. */
  function ElapsedLabel(minutes: int): (r: string)
    ensures r == "Just now" <==> minutes < 1
    ensures 1 <= minutes < 60 ==> r == NatToString(minutes) + "m ago"
    ensures 60 <= minutes ==> r == NatToString(minutes / 60) + "h " + NatToString(minutes % 60) + "m ago"
  {
    if minutes < 1 then "Just now"
    else if minutes < 60 then NatToString(minutes) + "m ago"
    else NatToString(minutes / 60) + "h " + NatToString(minutes % 60) + "m ago"
  }

  /** `getTimeElapsed`. */
  function TimeElapsed(nowMillis: int, createdMillis: int): string
  {
    ElapsedLabel(ElapsedMinutes(nowMillis, createdMillis))
  }

  /** A label of at least one minute is a digit string followed by the
      rest of the label, which starts with 'm' under an hour and 'h' from an
      hour on. */
  lemma LabelParts(m: int)
    requires m >= 1
    ensures m < 60 ==> ElapsedLabel(m) == NatToString(m) + "m ago"
    ensures m >= 60 ==> ElapsedLabel(m) == NatToString(m / 60) + ("h " + NatToString(m % 60) + "m ago")
  {
  }

  lemma MinutesLabelInjective(m: int, m': int)
    requires 1 <= m < 60 && 1 <= m' < 60
    requires ElapsedLabel(m) == ElapsedLabel(m')
    ensures m == m'
  {
    DigitPrefixUnique(NatToString(m), NatToString(m'), "m ago", "m ago");
    NatToStringInjective(m, m');
  }

  lemma HoursLabelInjective(m: int, m': int)
    requires m >= 60 && m' >= 60
    requires ElapsedLabel(m) == ElapsedLabel(m')
    ensures m == m'
  {
    var k, k' := m % 60, m' % 60;
    var tail, tail' := NatToString(k) + "m ago", NatToString(k') + "m ago";
    LabelParts(m);
    LabelParts(m');
    assert "h " + NatToString(k) + "m ago" == "h " + tail;
    assert "h " + NatToString(k') + "m ago" == "h " + tail';
    DigitPrefixUnique(NatToString(m / 60), NatToString(m' / 60), "h " + tail, "h " + tail');
    NatToStringInjective(m / 60, m' / 60);
    assert tail == ("h " + tail)[2..];
    assert tail' == ("h " + tail')[2..];
    DigitPrefixUnique(NatToString(k), NatToString(k'), "m ago", "m ago");
    NatToStringInjective(k, k');
  }

  lemma MixedLabelsDiffer(m: int, m': int)
    requires 1 <= m < 60 && m' >= 60
    ensures ElapsedLabel(m) != ElapsedLabel(m')
  {
    LabelParts(m);
    LabelParts(m');
  }

  /** The label determines the minute count: different counts of at least
      one minute never share a label. */
  lemma ElapsedLabelInjective(m: int, m': int)
    requires m >= 1 && m' >= 1
    requires ElapsedLabel(m) == ElapsedLabel(m')
    ensures m == m'
  {
    if m < 60 && m' < 60 {
      MinutesLabelInjective(m, m');
    } else if m >= 60 && m' >= 60 {
      HoursLabelInjective(m, m');
    } else if m < 60 {
      MixedLabelsDiffer(m, m');
    } else {
      MixedLabelsDiffer(m', m);
    }
  }

  // ---------------------------------------------------------------------------
  // Urgency

  /** Older than 30 minutes. */
  predicate IsUrgent(elapsedMillis: int)
  {
    elapsedMillis > 30 * 60 * 1000
  }

  /** Older than 45 minutes. */
  predicate IsVeryUrgent(elapsedMillis: int)
  {
    elapsedMillis > 45 * 60 * 1000
  }

  /** The card's ring: red when very urgent, orange when urgent, none
      otherwise. Very urgent cards are always urgent ones. */
  function UrgencyRing(elapsedMillis: int): (r: string)
    ensures IsVeryUrgent(elapsedMillis) ==> IsUrgent(elapsedMillis) && r == "ring-2 ring-red-500"
    ensures r == "" <==> !IsUrgent(elapsedMillis)
  {
    if IsVeryUrgent(elapsedMillis) then "ring-2 ring-red-500"
    else if IsUrgent(elapsedMillis) then "ring-1 ring-orange-500"
    else ""
  }

  // ---------------------------------------------------------------------------
  // The advance button

  /** The button's `onStatusUpdate(order.code, nextStatus)` call: present
      exactly when the order has a next status. */
  function AdvanceRequest(o: Order): (r: Option<(string, OrderStatus)>)
    ensures r.Some? <==> NextStatus(o.status).Some?
    ensures r.Some? ==> r.value.0 == o.code && r.value.1 == NextStatus(o.status).value
  {
    match NextStatus(o.status)
    case None => None
    case Some(n) => Some((o.code, n))
  }
}
