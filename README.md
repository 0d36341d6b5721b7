# Order form: identifier extraction, form state and toast notifier

A Dafny model of the logic inside the single React component `App` of an
order-entry form (`src/App.js`). The user pastes an order link; the component
extracts the order identifier from it with the regular expression
`order\/(\d+)`, the user fills in price and status, and a submit validates that
no field is empty, shows a toast, and after a delay resets the form and shows a
second toast. Toasts restart their entrance animation by being hidden and then
shown again after a short delay, and hide themselves after a longer one.

The project has four modules:

- `Wrappers` (`wrappers.dfy`): the `Option` type.
- `OrderIdExtraction` (`order_id.dfy`): the extraction as a pure scanner over
  `seq<char>` (`FindFrom` for the unanchored leftmost search, `DigitRun` for
  the greedy `\d+`, `Extract` for the whole match), with a declarative
  specification (`IsCapture`: the maximal digit run after the leftmost
  `order/` that is immediately followed by a digit) and the proof that the
  scanner meets it in both directions.
- `Toast` (`toast.dfy`): the notifier as a pure state machine over
  `ToastState` (`AfterNotify`, `AfterShowDelay`, `AfterHideTimer`,
  `AfterUnmount`, `Rendered`), its invariant `Inv`, and the class
  `ToastNotifier` whose fields are the component's toast state and the
  `toastTimeout` ref and whose methods are proved to implement those
  transitions.
- `OrderForm` (`order_form.dfy`): the form data, `Validate` (the error map)
  and `Changed` (the form after a field change), and the class `App`, whose
  methods `HandleChange`, `ValidateForm`, `Submit` and `ResetDelayElapsed`
  update the form state and drive its `ToastNotifier`.

Timers are not clocks here. Each callback is an event that the caller fires.
`ToastNotifier.pendingShows` counts the 100 ms show callbacks still to run,
`hideTimers` holds the handles of the 3000 ms hide timers not yet fired or
cleared, and `App.resetPending` records the 3000 ms reset of a submission.
Handles come from a counter that starts at 1, as browser handles are positive
and so truthy in `if (toastTimeout.current)`. Each handler ends in the state
React has after applying all the updates it queued, in order.

Three facts about the code that are easy to misread:

- Two notifications within 100 ms leave two hide timers pending, because the
  100 ms show callback is never cancelled. Only the second timer is tracked,
  and the first hides the newer toast when it fires
  (`Toast.QuickSuccessionLeavesTwoHideTimers`). The `clearTimeout` in
  `showNotification` leaves a single pending hide timer only when
  notifications are spaced (`Toast.SpacedNotificationKeepsOneHideTimer`).
- A link containing `order/123` need not yield `123`: `order/1234` yields
  `1234`, and an earlier `order/<digits>` wins. The exact rule is
  `OrderIdExtraction.ExtractIsCapture`.
- `handleChange` would store any value for the name `orderId`
  (`OrderForm.Changed` models that); only the `disabled` attribute of that
  input keeps the event from happening.

## Model

| member | source | states |
|---|---|---|
| OrderIdExtraction.DigitRun | src/App.js:119 | the greedy `\d+`: the result is a prefix of the input, all ASCII digits, and is followed by the end or a non-digit |
| OrderIdExtraction.FindFrom | src/App.js:119 | the unanchored search: a found position matches (`order/` then a digit) and no earlier position from the start does; no result means no position matches |
| OrderIdExtraction.Extract | src/App.js:119-123 | there is a result exactly when some position matches; a result is non-empty and made only of digits, so `order/` is never captured |
| OrderIdExtraction.OrderIdFor | src/App.js:122-135 | the stored identifier is the captured digits when the link matches and empty exactly when it does not, and is always digits only |
| OrderIdExtraction.MaximalRunIsDigitRun | src/App.js:119 | any maximal digit run at a position equals what the scanner's `DigitRun` takes there |
| OrderIdExtraction.ExtractIsCapture | src/App.js:119-123 | `Extract(link) == Some(d)` if and only if `d` is the maximal digit run after the leftmost `order/` that is immediately followed by a digit |
| OrderIdExtraction.FirstOccurrenceWins | src/App.js:119-123 | with no match in the prefix, the digits after the next `order/` are the result, whatever follows later, including other `order/<digits>` |
| OrderIdExtraction.SkipsMarkerWithoutDigits | src/App.js:119-123 | `order/abc order/12` yields `12` |
| OrderIdExtraction.FirstOfTwoWins | src/App.js:119-123 | `order/12/x/order/34` yields `12` |
| OrderIdExtraction.FindsIdInUrl | src/App.js:119-123 | `https://x/order/77` yields `77` |
| OrderIdExtraction.NoMatchWithoutMarker | src/App.js:119-123 | `no-match-here` yields no match |
| Toast.InitialInv | src/App.js:104-108 | the mount state (empty message, hidden, success colour, empty ref) satisfies the notifier invariant |
| Toast.AfterNotify | src/App.js:141-157 | sets message and colour, forces the toast hidden, cancels exactly the tracked hide timer, keeps the ref and the handle counter, schedules one more show callback, keeps the invariant, and leaves auto-dismiss armed |
| Toast.AfterShowDelay | src/App.js:151-156 | shows the toast with the same message, starts a fresh hide timer with the next handle, makes the ref track it, keeps the invariant, and arms auto-dismiss: the visible toast has its tracked hide timer pending |
| Toast.AfterHideTimer | src/App.js:153-155 | hides the toast and removes that timer; the message, colour, ref, pending shows and handle counter are unchanged; auto-dismiss stays armed |
| Toast.AfterUnmount | src/App.js:191-197 | the tracked hide timer is no longer pending; nothing else changes |
| Toast.Rendered | src/App.js:252-253 | at most one toast element is rendered, exactly one when `showToast` holds, carrying the message and the success colour |
| Toast.QuickSuccessionLeavesTwoHideTimers | src/App.js:146-156 | two notifications within the show delay leave two hide timers pending, the toast shows the second message, and the untracked timer hides it |
| Toast.SpacedNotificationKeepsOneHideTimer | src/App.js:146-156 | a notification with no show pending and only the tracked timer pending ends, once shown, with exactly the tracked hide timer pending |
| Toast.ToastNotifier.constructor | src/App.js:104-108 | the notifier starts in the mount state |
| Toast.ToastNotifier.Notify | src/App.js:141-157 | `showNotification` updates the fields as `AfterNotify` says |
| Toast.ToastNotifier.ShowDelayElapsed | src/App.js:151-156 | the show callback updates the fields and the ref as `AfterShowDelay` says |
| Toast.ToastNotifier.HideTimerFired | src/App.js:153-155 | a hide timer firing updates the fields as `AfterHideTimer` says |
| Toast.ToastNotifier.Unmount | src/App.js:191-198 | the unmount cleanup clears the tracked hide timer as `AfterUnmount` says |
| OrderForm.FormData.Set | src/App.js:113-116 | the spread `{...formData, [name]: value}`: the named field takes the value and every other field is unchanged |
| OrderForm.App.SubmitDisabled | src/App.js:249 | the submit button is disabled exactly while the reset of a submission is scheduled |
| OrderForm.Validate | src/App.js:160-168 | a field has an error entry exactly when it is empty, each entry is that field's fixed message, and the map is empty exactly when all four fields are non-empty |
| OrderForm.Changed | src/App.js:111-138 | the named field takes the value; a link change also sets the identifier to the extraction result (empty when there is no match) and keeps price and status; any other change leaves every other field, the identifier included, unchanged |
| OrderForm.App.constructor | src/App.js:97-108 | the component starts with the default form, no errors, not submitting, and the notifier in its mount state |
| OrderForm.App.HandleChange | src/App.js:111-138 | the form becomes `Changed(old, name, value)`; a link that matches notifies "Order <id> has been found" with success; otherwise the notifier is unchanged; the identifier keeps agreeing with the link |
| OrderForm.App.ValidateForm | src/App.js:160-169 | the stored errors are exactly `Validate` of the form, and the result is true exactly when they are empty |
| OrderForm.App.Submit | src/App.js:172-189 | with the button disabled nothing changes; an invalid form changes only the errors (no notification, not submitting); a valid one sets submitting and notifies "Form submitted successfully" |
| OrderForm.App.ResetDelayElapsed | src/App.js:177-187 | the form returns to its defaults, errors are empty, "Form cleared" is notified, and the button is enabled again |
| OrderForm.SubmissionScenario | src/App.js:111-188 | for any matching link and non-empty price: the identifier found is the extraction result, its toast is shown, the submit sets submitting, and after the reset the form is at its defaults with the "Form cleared" toast shown |

## Left out

- Styling, keyframes and layout (src/App.js:4-94) and the markup beyond the
  toast conditions and the button's `disabled` flag: presentation only.
- Real timer durations (100 ms and 3000 ms) and React's scheduling: each
  callback is an explicit event.
- The commented-out anchored regular expression (src/App.js:121, 125): dead code.
- `e.preventDefault()` and the browser's handling of `type="number"` inputs:
  DOM behaviour outside the component.
- OrderForm.App.HandleChange: requires the field not to be `orderId`, because
  that input is `disabled` (src/App.js:212) and never fires `onChange`; what
  `handleChange` would do for that name is modelled by `OrderForm.Changed`.
- OrderForm.App.Submit: the disabled button is modelled as a submit event that
  does nothing while `isSubmitting` holds; the browser's own rule for implicit
  submission is not modelled.
- The status is a free string, as in the state; the select only offers
  Pending, Paid and Completed, which the model does not restrict.
- The model does not distinguish a mounted from an unmounted component: React
  ignores state updates after unmount, and timer events stay callable here.
  The unmount cleanup is the one event after which a visible toast may have no
  pending hide timer (`Toast.AutoDismissArmed` is not promised for it).
