/** The toast notifier of the order form. Its state is the message, the
    visibility flag `showToast`, the colour flag `showSucessToast` and the ref
    `toastTimeout` holding the handle of the most recently scheduled hide timer.
    Time does not appear: each timer callback is an event of its own. Browser
    timers are represented by what is still scheduled: `pendingShows` counts the
    100 ms show callbacks (they are never cancelled), `hideTimers` holds the
    handles of the 3000 ms hide timers not yet fired or cleared, and
    `nextHandle` is the handle the next hide timer receives (handles are
    positive, so a stored handle is truthy). */
module Toast {
  import opened Wrappers

  datatype ToastState = ToastState(
    message: string,
    visible: bool,
    success: bool,
    tracked: Option<nat>,
    pendingShows: nat,
    hideTimers: set<nat>,
    nextHandle: nat)

  /** What the component holds when it mounts: no message, hidden, success
      colour, and an empty ref. */
  const Initial := ToastState("", false, true, None, 0, {}, 1)

  /** What every reachable state satisfies: handles come from the counter, the
      ref holds the newest handle issued, and nothing is shown or scheduled to
      hide before the first show callback has run. */
  ghost predicate Inv(s: ToastState) {
    && s.nextHandle >= 1
    && (forall h :: h in s.hideTimers ==> 1 <= h < s.nextHandle)
    && (s.tracked.None? ==> s.hideTimers == {} && !s.visible)
    && (s.tracked.Some? ==> s.tracked.value == s.nextHandle - 1)
  }

  /** Auto-dismiss is armed: a visible toast has its tracked hide timer pending,
      so it will hide itself. Every event but the unmount cleanup re-establishes it. */
  predicate AutoDismissArmed(s: ToastState) {
    s.visible ==> s.tracked.Some? && s.tracked.value in s.hideTimers
  }

  lemma InitialInv()
    ensures Inv(Initial)
  {
  }

  /** `showNotification(message, success)`: store message and colour, hide the
      toast so that its entrance animation restarts, clear the tracked hide
      timer, and schedule the show callback. */
  function AfterNotify(s: ToastState, message: string, success: bool): (r: ToastState)
    ensures Inv(s) ==> Inv(r)
    ensures AutoDismissArmed(r)
    ensures r.message == message && r.success == success && !r.visible
    ensures r.tracked == s.tracked && r.nextHandle == s.nextHandle
    ensures r.pendingShows == s.pendingShows + 1
    ensures r.tracked.Some? ==> r.tracked.value !in r.hideTimers
    ensures forall h :: h in r.hideTimers <==> h in s.hideTimers && Some(h) != s.tracked
  {
    var cleared := if s.tracked.Some? then s.hideTimers - {s.tracked.value} else s.hideTimers;
    s.(message := message, visible := false, success := success,
       hideTimers := cleared, pendingShows := s.pendingShows + 1)
  }

  /** The 100 ms show callback runs: show the toast, start a fresh hide timer
      and remember its handle in the ref (overwriting the previous one, which
      is not cleared). */
  function AfterShowDelay(s: ToastState): (r: ToastState)
    requires s.pendingShows > 0
    ensures Inv(s) ==> Inv(r)
    ensures AutoDismissArmed(r)
    ensures r.visible && r.message == s.message && r.success == s.success
    ensures r.pendingShows == s.pendingShows - 1
    ensures r.nextHandle == s.nextHandle + 1
    ensures r.tracked == Some(s.nextHandle)
    ensures Inv(s) ==> s.nextHandle !in s.hideTimers
    ensures r.hideTimers == s.hideTimers + {s.nextHandle}
  {
    s.(visible := true, tracked := Some(s.nextHandle),
       hideTimers := s.hideTimers + {s.nextHandle},
       nextHandle := s.nextHandle + 1, pendingShows := s.pendingShows - 1)
  }

  /** The hide timer `h` fires: hide the toast. The ref is left as it is. */
  function AfterHideTimer(s: ToastState, h: nat): (r: ToastState)
    requires h in s.hideTimers
    ensures Inv(s) ==> Inv(r)
    ensures AutoDismissArmed(r)
    ensures !r.visible && r.message == s.message && r.success == s.success
    ensures r.tracked == s.tracked && r.pendingShows == s.pendingShows
    ensures r.nextHandle == s.nextHandle
    ensures r.hideTimers == s.hideTimers - {h}
  {
    s.(visible := false, hideTimers := s.hideTimers - {h})
  }

  /** The unmount cleanup: clear the tracked hide timer; nothing else changes. */
  function AfterUnmount(s: ToastState): (r: ToastState)
    ensures Inv(s) ==> Inv(r)
    ensures r.tracked.Some? ==> r.tracked.value !in r.hideTimers
    ensures forall h :: h in r.hideTimers <==> h in s.hideTimers && Some(h) != s.tracked
    ensures r.(hideTimers := s.hideTimers) == s
  {
    if s.tracked.Some? then s.(hideTimers := s.hideTimers - {s.tracked.value}) else s
  }

  /** One rendered toast element: its text and whether it has the success colour. */
  datatype ToastView = ToastView(message: string, success: bool)

  /** The two conditional toast elements of the markup. */
  function Rendered(s: ToastState): (r: seq<ToastView>)
    ensures |r| <= 1
    ensures |r| == 1 <==> s.visible
    ensures forall t :: t in r ==> t == ToastView(s.message, s.success)
  {
    (if s.visible && s.success then [ToastView(s.message, true)] else [])
    + (if s.visible && !s.success then [ToastView(s.message, false)] else [])
  }

  /** Two notifications within the 100 ms show delay: both show callbacks run,
      so two hide timers are pending at once and only the second is tracked;
      the toast shows the second message. When the untracked first timer fires
      it hides the second toast while the tracked timer is still pending. */
  lemma QuickSuccessionLeavesTwoHideTimers(
    s: ToastState, m1: string, b1: bool, m2: string, b2: bool)
    requires Inv(s)
    ensures var r := AfterShowDelay(AfterShowDelay(AfterNotify(AfterNotify(s, m1, b1), m2, b2)));
      && Inv(r)
      && r.tracked == Some(s.nextHandle + 1)
      && s.nextHandle in r.hideTimers && s.nextHandle + 1 in r.hideTimers
      && |r.hideTimers| >= 2
      && Rendered(r) == [ToastView(m2, b2)]
      && var hidden := AfterHideTimer(r, s.nextHandle);
         Rendered(hidden) == [] && s.nextHandle + 1 in hidden.hideTimers
  {
  }

  /** The case the `clearTimeout` in `showNotification` is meant for: when a notification arrives with no show
      callback outstanding and at most the tracked hide timer pending, then once
      its show callback has run exactly one hide timer is pending, the tracked one. */
  lemma SpacedNotificationKeepsOneHideTimer(s: ToastState, m: string, b: bool)
    requires Inv(s) && s.pendingShows == 0
    requires forall h :: h in s.hideTimers ==> Some(h) == s.tracked
    ensures var r := AfterShowDelay(AfterNotify(s, m, b));
      r.tracked.Some? && r.hideTimers == {r.tracked.value} && Rendered(r) == [ToastView(m, b)]
  {
  }

  /** The notifier as the component holds it: React state for the message and
      the two flags, the ref for the tracked handle, and the pending timers. */
  class ToastNotifier {
    var toastMessage: string
    var showToast: bool
    var showSuccessToast: bool
    var toastTimeout: Option<nat>
    var pendingShows: nat
    var hideTimers: set<nat>
    var nextHandle: nat

    /** The abstract value of the notifier. */
    function State(): ToastState
      reads this
    {
      ToastState(toastMessage, showToast, showSuccessToast, toastTimeout,
                 pendingShows, hideTimers, nextHandle)
    }

    ghost predicate Valid()
      reads this
    {
      Inv(State())
    }

    constructor ()
      ensures Valid() && State() == Initial
    {
      toastMessage, showToast, showSuccessToast := "", false, true;
      toastTimeout := None;
      pendingShows, hideTimers, nextHandle := 0, {}, 1;
    }

    /** `showNotification`. */
    method Notify(message: string, success: bool)
      requires Valid()
      modifies this
      ensures Valid() && State() == AfterNotify(old(State()), message, success)
    {
      toastMessage := message;
      showToast := false;
      showSuccessToast := success;
      if toastTimeout.Some? {
        hideTimers := hideTimers - {toastTimeout.value};
      }
      pendingShows := pendingShows + 1;
    }

    /** The show callback scheduled by `showNotification` runs. */
    method ShowDelayElapsed()
      requires Valid() && pendingShows > 0
      modifies this
      ensures Valid() && State() == AfterShowDelay(old(State()))
    {
      pendingShows := pendingShows - 1;
      showToast := true;
      var handle := nextHandle;
      nextHandle := nextHandle + 1;
      hideTimers := hideTimers + {handle};
      toastTimeout := Some(handle);
    }

    /** The hide timer with handle `h` fires. */
    method HideTimerFired(h: nat)
      requires Valid() && h in hideTimers
      modifies this
      ensures Valid() && State() == AfterHideTimer(old(State()), h)
    {
      hideTimers := hideTimers - {h};
      showToast := false;
    }

    /** The cleanup the component registers for unmount. */
    method Unmount()
      requires Valid()
      modifies this
      ensures Valid() && State() == AfterUnmount(old(State()))
    {
      if toastTimeout.Some? {
        hideTimers := hideTimers - {toastTimeout.value};
      }
    }
  }
}
