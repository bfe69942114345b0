/** The customer's progress view of `src/components/customer/OrderTracking.tsx`:
    the five-step timeline, the per-step completed/current flags, the rule
    that a poll raises a notification only when the status changed, and how
    the notification toggle reaches the polling effect. */
module OrderTracking {
  import opened Wrappers
  import opened Seqs
  import opened Types

  /** A timeline entry; `title` is the step's `label`. */
  datatype Step = Step(status: OrderStatus, title: string, description: string)

  /** `statusSteps`: the forward path; `cancelled` has no step. */
  const StatusSteps: seq<Step> := [
    Step(Pending, "Order Placed", "Waiting for payment"),
    Step(Confirmed, "Payment Confirmed", "Sent to kitchen"),
    Step(Making, "Preparing", "Being cooked"),
    Step(Ready, "Ready", "Ready for delivery"),
    Step(Delivered, "Delivered", "Enjoy your meal!")
  ]

  /** `currentStatusIndex`: the position of the status on the path, -1 for
      `cancelled`. */
  function CurrentStatusIndex(s: OrderStatus): (i: int)
    ensures -1 <= i < |StatusSteps|
    ensures i == -1 <==> s == Cancelled
    ensures i >= 0 ==> StatusSteps[i].status == s
  {
    FindIndex(StatusSteps, (st: Step) => st.status == s)
  }

  /** The step index of pending..delivered is 0..4. */
  lemma StepIndices()
    ensures CurrentStatusIndex(Pending) == 0 && CurrentStatusIndex(Confirmed) == 1
    ensures CurrentStatusIndex(Making) == 2 && CurrentStatusIndex(Ready) == 3
    ensures CurrentStatusIndex(Delivered) == 4 && CurrentStatusIndex(Cancelled) == -1
  {
    IndexOfStep(Pending, 0);
    IndexOfStep(Confirmed, 1);
    IndexOfStep(Making, 2);
    IndexOfStep(Ready, 3);
    IndexOfStep(Delivered, 4);
  }

  /** The steps carry pairwise different statuses, so a status found at `k`
      is found only there. */
  lemma IndexOfStep(s: OrderStatus, k: int)
    requires 0 <= k < |StatusSteps| && StatusSteps[k].status == s
    ensures CurrentStatusIndex(s) == k
  {
    var statuses := [Pending, Confirmed, Making, Ready, Delivered];
    assert forall i :: 0 <= i < 5 ==> StatusSteps[i].status == statuses[i];
    var i := CurrentStatusIndex(s);
    assert i >= 0 && StatusSteps[i].status == s;
  }

  datatype StepFlags = StepFlags(completed: bool, current: bool)

  /** The flags drawn for each step: completed up to and including the
      current index, current exactly at it. */
  function Timeline(s: OrderStatus): (r: seq<StepFlags>)
    ensures |r| == |StatusSteps|
    ensures forall i :: 0 <= i < |r| ==> r[i] == StepFlags(i <= CurrentStatusIndex(s), i == CurrentStatusIndex(s))
  {
    var current := CurrentStatusIndex(s);
    seq(|StatusSteps|, (i: int) requires 0 <= i < |StatusSteps| => StepFlags(i <= current, i == current))
  }

  /** The completed steps form a prefix that ends at the current step; at
      most one step is current; a cancelled order completes no step. */
  lemma TimelineShape(s: OrderStatus)
    ensures var r := Timeline(s);
      && (forall i, j :: 0 <= i < j < |r| && r[j].completed ==> r[i].completed)
      && (forall i, j :: 0 <= i < j < |r| ==> !(r[i].current && r[j].current))
      && (forall i :: 0 <= i < |r| && r[i].current ==>
            (r[i].completed && forall j :: i < j < |r| ==> !r[j].completed))
      && (s == Cancelled <==> forall i :: 0 <= i < |r| ==> !r[i].completed)
  {
    var r := Timeline(s);
    if s != Cancelled {
      assert r[CurrentStatusIndex(s)].completed;
    }
  }

  /** `getStatusMessage`: the notification text for a status. */
  function StatusMessage(s: OrderStatus): string
  {
    match s
    case Pending => "Your order has been placed and is waiting for payment confirmation."
    case Confirmed => "Your order has been confirmed and sent to the kitchen."
    case Making => "Your order is being prepared by our kitchen staff."
    case Ready => "Your order is ready! Please wait for delivery to your table."
    case Delivered => "Your order has been delivered. Enjoy your meal!"
    case Cancelled => "Order status unknown."
  }

  /** One successful poll: the polled status becomes the last seen one, and a
      notification is raised only when it differs from the last seen status
      and `enabled`, the notification flag the poll consults, is on. */
  function Poll(lastSeen: OrderStatus, polled: OrderStatus, enabled: bool): (r: (OrderStatus, Option<string>))
    ensures r.0 == polled
    ensures r.1.Some? <==> enabled && polled != lastSeen
    ensures r.1.Some? ==> r.1.value == StatusMessage(polled)
  {
    (polled, if enabled && polled != lastSeen then Some(StatusMessage(polled)) else None)
  }

  /** Polling the same status again raises nothing: each change is announced
      at most once. */
  lemma PollAnnouncesOnce(lastSeen: OrderStatus, polled: OrderStatus, enabled: bool)
    ensures Poll(Poll(lastSeen, polled, enabled).0, polled, enabled).1.None?
  {
  }

  // ---------------------------------------------------------------------------
  // The polling effect and the notification toggle

  /** The tracking view between polls: the status on screen, the
      `notificationsEnabled` value the running polling effect closed over
      when it was last set up, and the value the toggle button shows. The
      effect is set up again only when the shown status changes (its
      dependencies are the code and the status), so `captured` is refreshed
      only then. */
  datatype Tracker = Tracker(shown: OrderStatus, captured: bool, enabled: bool)

  /** The view as first rendered: notifications on, and the effect set up
      with that value. */
  function Mount(initial: OrderStatus): (r: Tracker)
    ensures r.shown == initial && r.enabled && r.captured == r.enabled
  {
    Tracker(initial, true, true)
  }

  /** `toggleNotifications`: flips the button's flag; the running effect
      keeps the value it captured. */
  function Toggle(t: Tracker): (r: Tracker)
    ensures r.enabled == !t.enabled
    ensures r.shown == t.shown && r.captured == t.captured
  {
    t.(enabled := !t.enabled)
  }

  /** A new status on screen sets the effect up again, capturing the flag of
      that render; the same status leaves the running effect in place. */
  function Show(t: Tracker, polled: OrderStatus): (r: Tracker)
    ensures r.shown == polled && r.enabled == t.enabled
    ensures polled != t.shown ==> r.captured == t.enabled
    ensures polled == t.shown ==> r == t
  {
    if polled == t.shown then t else Tracker(polled, t.enabled, t.enabled)
  }

  /** A poll as the component runs it: the notification follows the flag
      the effect captured, not the button's current one. */
  function PollAsWritten(t: Tracker, polled: OrderStatus): (r: (Tracker, Option<string>))
    ensures r.1.Some? <==> t.captured && polled != t.shown
    ensures r.1.Some? ==> r.1.value == StatusMessage(polled)
    ensures r.0.shown == polled && r.0.enabled == t.enabled
    ensures polled != t.shown ==> r.0.captured == t.enabled
  {
    var (_, note) := Poll(t.shown, polled, t.captured);
    (Show(t, polled), note)
  }

  /** A poll as the toggle evidently intends: the notification follows the
      flag the button shows at the time of the poll. */
  function PollTracker(t: Tracker, polled: OrderStatus): (r: (Tracker, Option<string>))
    ensures r.1.Some? <==> t.enabled && polled != t.shown
    ensures r.1.Some? ==> r.1.value == StatusMessage(polled)
    ensures r.0.shown == polled && r.0.enabled == t.enabled && r.0.captured == t.enabled
  {
    var (shown, note) := Poll(t.shown, polled, t.enabled);
    (Tracker(shown, t.enabled, t.enabled), note)
  }

  /** `handleRefresh`: the fetched status is shown without any
      notification. */
  function Refresh(t: Tracker, fetched: OrderStatus): (r: Tracker)
    ensures r.shown == fetched && r.enabled == t.enabled
    ensures fetched != t.shown ==> r.captured == t.enabled
  {
    Show(t, fetched)
  }

  /** While the toggle has not been used since the effect was last set up,
      the component behaves as intended, and it stays in that state. */
  lemma AsWrittenAgreesUntilToggled(t: Tracker, polled: OrderStatus)
    requires t.captured == t.enabled
    ensures PollAsWritten(t, polled).1 == PollTracker(t, polled).1
    ensures PollAsWritten(t, polled).0.captured == PollAsWritten(t, polled).0.enabled
  {
  }

  /** Turning notifications off does not silence the next change: mounted
      on a pending order, toggled off, the poll that sees the payment
      confirmed still notifies. */
  lemma StaleFlagNotifiesWhenOff()
    ensures var t := Toggle(Mount(Pending));
      && !t.enabled
      && PollAsWritten(t, Confirmed).1 == Some(StatusMessage(Confirmed))
      && PollTracker(t, Confirmed).1 == None
  {
  }

  /** Turning notifications back on does not reach the running effect
      either: after one change seen while off, switching on leaves the next
      change silent. */
  lemma StaleFlagSilentWhenOn()
    ensures var t := Toggle(PollAsWritten(Toggle(Mount(Pending)), Confirmed).0);
      && t.enabled
      && PollAsWritten(t, Making).1 == None
      && PollTracker(t, Making).1 == Some(StatusMessage(Making))
  {
  }
}
