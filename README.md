# Booking widget: a verified model

This project models the logic of the appointment booking widget (`BookingWidget`,
in `assets/js/booking-widget.js`). It covers four parts:

- **Calendar.** A 7-column grid, Sunday first. It starts with blank cells up to
  today's weekday column, then shows 30 consecutive day cells from today on. Every
  day cell is clickable, weekends included.
- **Slot availability.** A Saturday or Sunday has no slots. Any other day offers
  the fixed times 09:00, 10:00, 11:00, 14:00, 15:00, 16:00 and 17:00, less those a
  per-slot draw drops. The draw order is the list order.
- **Selection.** Clicking a day records the date and shows that day's time
  buttons. Clicking a time records it and shows the contact form.
- **Submission.** A required-field check (name, email, date, time) comes first. A
  failure shows an error banner and makes no booking call. Otherwise a loading
  banner is shown, then either a success banner followed by a form reset, or an
  error banner if the call throws. Every banner except the loading one schedules
  its own auto-hide.

Files and modules:

- `calendar.dfy` (`Calendar`): day numbers, weekdays, grid cells, `RenderCalendar`
  (the nested-loop generator) and the layout lemmas.
- `slots.dfy` (`Slots`): the base slots, the filter with injected keep/drop
  decisions, and the subsequence, membership and no-duplicate lemmas.
- `widget_state.dfy` (`WidgetModel`): the widget's state as a value and one
  function per operation, with the lemmas saying what each operation changes.
- `widget.dfy` (`Widget`): the `BookingWidget` class. Its fields are updated in
  place. Each method is specified by the matching `WidgetModel` function over the
  state before the call.
- `sessions.dfy` (`Sessions`): user events, runs of events from a fresh widget, an
  invariant that holds in every reachable state, and concrete runs.
- `wrappers.dfy` (`Wrappers`): `Option`, standing for the widget's `null`.

Days are integers counting days since 1970-01-01, a Thursday. `Weekday(d) = (d + 4) % 7`
numbers the weekdays as JavaScript's `getDay` does: 0 is Sunday, 6 is Saturday.

The code does not do the following, though a booking widget might be expected to:

- Changing the date does not clear the selected time. `DateChangeKeepsTime` shows a run where it stays.
- A selected time is not checked against the date's slots (`SelectTimeUnchecked`).
- The email is not checked for shape. `Validate` accepts any non-empty email.
- A second submission while the first booking call is pending is not refused (`StartDoesNotGuardInFlight`). `DoubleSubmitNotGuarded` hands the same booking to the call twice.
- Weekend days are clickable in the grid. They just get no slots.
- A successful booking resets the selection but leaves the time buttons shown. A time can then be selected while no date is selected (`TimeWithoutDateIsReachable`).
- Status timers are never cancelled. An older auto-hide can hide a newer banner. The model counts pending timers (`pendingHides`), and `HideTimerFires` hides whatever is shown.

## Model

| member | source | states |
|---|---|---|
| Calendar.Weekday | assets/js/booking-widget.js:54 | The weekday of a day is a column number 0..6, Sunday = 0. |
| Calendar.ClickedDate | assets/js/booking-widget.js:76-79 | A click selects a date exactly when the cell is a day cell (class `available`), and then it selects that cell's date. Blank cells select nothing. |
| Calendar.RenderCalendar | assets/js/booking-widget.js:38-72 | The loop emits exactly `Weekday(today)` blank cells, then the 30 day cells today+0 … today+29 in increasing order, and nothing else. Padding appears only before the first day. |
| Calendar.DayInWeekdayColumn | assets/js/booking-widget.js:42-68 | In the rendered grid, the cell at position k that holds a day stands in column k mod 7, which is that day's weekday. |
| Calendar.ClickSelectsDayOfCell | assets/js/booking-widget.js:56-78 | Over the rendered grid, a padding cell never selects a date. The k-th cell past the padding selects today + (k − padding), whatever its weekday. |
| Calendar.SelectableDaysAreWindow | assets/js/booking-widget.js:50-78 | Some cell of the grid selects day d if and only if today ≤ d < today + 30. |
| Calendar.LayoutIsUnique | assets/js/booking-widget.js:50-68 | The layout fixes the grid: two renderings on the same day are the same sequence of cells. |
| Slots.KeepWhere | assets/js/booking-widget.js:153 | The filter keeps exactly as many slots as there are `true` decisions, at most all of them, and yields an order-preserving subsequence of its input. |
| Slots.AvailableSlotsForDate | assets/js/booking-widget.js:142-154 | A Saturday or Sunday gets the empty list. Any other day gets an order-preserving subsequence of the base list holding one slot per `true` decision. |
| Slots.KeepWhereMembership | assets/js/booking-widget.js:153 | A slot is in the filtered list if and only if some position holds it and that position's decision is `true`. |
| Slots.KeepAllIsIdentity | assets/js/booking-widget.js:153 | With every decision `true` the filter returns its input unchanged. |
| Slots.WeekdaySlots | assets/js/booking-widget.js:144-153 | A weekday's slots are an order-preserving subsequence of the seven base slots. They have no duplicates and their count is the number of keeps (≤ 7). A slot is offered if and only if its decision keeps it. With all keeps they are the whole base list. |
| Slots.OfferedSlotsAreBaseSlots | assets/js/booking-widget.js:144-153 | Every offered slot, on any day and with any decisions, is one of the base slots. |
| WidgetModel.Validate | assets/js/booking-widget.js:161-172 | The required-field check passes if and only if name and email are non-empty and both a date and a non-empty time are selected. When it passes, the request carries exactly the selected date and time and the three form fields. |
| WidgetModel.SelectDateKeepsTime | assets/js/booking-widget.js:93-107 | Selecting a date sets the date and shows its slots. It changes nothing else, and the selected time stays as it was. |
| WidgetModel.SelectTimeUnchecked | assets/js/booking-widget.js:126-140 | Selecting a time sets it and shows the form. The date is untouched and the time is not checked against the shown slots. |
| WidgetModel.ShowStatusSchedulesHide | assets/js/booking-widget.js:198-209 | A banner shows its kind and text and becomes visible. The pending auto-hides grow by one unless the kind is `loading`, in which case they stay as they were (none is ever cancelled). The selection, form and time buttons are untouched. |
| WidgetModel.ResetProperties | assets/js/booking-widget.js:211-223 | After a reset, date and time are null, the inputs are empty and the form is hidden, which is exactly the constructor's state. The banner and time buttons are kept, and a second reset changes nothing. |
| WidgetModel.IncompleteSubmitRejected | assets/js/booking-widget.js:161-164 | When the check fails, the submission only shows the error banner. The selection and form are unchanged and no booking call happens. |
| WidgetModel.CompleteSubmitOutcome | assets/js/booking-widget.js:174-186 | When the check passes, the loading banner comes first. If the call returns, the submission ends with `success` and the selection reset to the initial one. If it throws, it ends with `error` and the selection kept. Exactly one auto-hide is added. |
| Widget.BookingWidget.constructor | assets/js/booking-widget.js:3-9 | A new widget holds a rendered grid with the calendar layout, nothing is selected, and form and banner are hidden. |
| Widget.BookingWidget.SelectDate | assets/js/booking-widget.js:93-107 | The new state is the old one with the date and its slots selected. |
| Widget.BookingWidget.SelectTime | assets/js/booking-widget.js:126-140 | The new state is the old one with the time selected and the form shown. |
| Widget.BookingWidget.ShowStatus | assets/js/booking-widget.js:198-209 | The new state shows the banner and counts one more pending auto-hide unless the kind is `loading`. |
| Widget.BookingWidget.HideTimerFires | assets/js/booking-widget.js:204-207 | A pending auto-hide fires: the banner is hidden and one fewer timer is pending. |
| Widget.BookingWidget.ResetForm | assets/js/booking-widget.js:211-223 | The new state is the old one reset: inputs empty, form hidden, date and time null. |
| Widget.BookingWidget.StartSubmission | assets/js/booking-widget.js:156-176 | Returns the request handed to the booking call if and only if the required-field check passes, and shows the error or loading banner accordingly. |
| Widget.BookingWidget.FinishSubmission | assets/js/booking-widget.js:179-186 | After the call, the state shows the error banner if the call threw. Otherwise it shows the success banner and then resets. |
| Widget.BookingWidget.SubmitBooking | assets/js/booking-widget.js:156-187 | A whole submission: returns the request sent (none if the check failed) and reaches the state `SubmitStep` gives. |
| WidgetModel.StartDoesNotGuardInFlight | assets/js/booking-widget.js:156-176 | From every state that passes the required-field check, starting a submission shows `loading` and leaves a state that still passes it with the same request, so nothing refuses a second submission in flight. |
| Widget.DoubleSubmitNotGuarded | assets/js/booking-widget.js:156-187 | A second submission while the first call is pending (status `loading`) is not refused. The same booking goes to the booking call twice. |
| Sessions.InitialInvariant | assets/js/booking-widget.js:3-9 | A new widget satisfies the session invariant. |
| Sessions.ApplyKeepsInvariant | assets/js/booking-widget.js:76-90 | Every event the page offers keeps the invariant: the form is shown if and only if a time is selected, a selected date is in the window, time buttons and selected time are base slots, a visible banner has a kind, and no loading banner is left showing. That last part holds only because a submission runs as one event in these sessions; the pending booking call is not interleaved. |
| Sessions.RunKeepsInvariant | assets/js/booking-widget.js:76-90 | Any run of offered events from a state with the invariant ends in a state with it. |
| Sessions.ReachableStatesSatisfyInvariant | assets/js/booking-widget.js:76-90 | Every state reachable from a freshly created widget satisfies the invariant. |
| Sessions.MondayBookingSucceeds | assets/js/booking-widget.js:156-187 | On a Monday with all draws keeping, picking the day and "10:00" selects both and shows the form. Submitting with name and email and a returning call then shows `success` and clears the selection. |
| Sessions.DateChangeKeepsTime | assets/js/booking-widget.js:93-107 | Picking a second date after a time leaves that time selected. |
| Sessions.TimeWithoutDateIsReachable | assets/js/booking-widget.js:211-223 | After a successful booking, the old time buttons still work. They lead to a state with a time, no date and the form shown, and submitting from it fails the required-field check. |

## Left out

- Markup and the DOM: `innerHTML` strings, the weekday header row, `querySelector`, and the `selected` CSS class toggling. The calendar is a sequence of cells and the time buttons are the `shownSlots` list.
- Event-listener wiring (`attachEventListeners`) is represented only by the `Sessions.Event` list and its `Enabled` test. This test models which elements are on display; it is not code.
- `Math.random()` in the slot filter. It is replaced by one injected keep/drop decision per base slot, in list order.
- JavaScript `Date`: month rollover in `setDate`, `toISOString` (UTC) against `getDay` (local time), and parsing an ISO date back. Days are abstract numbers with one weekday function. The real widget can be one day off in two ways. West of UTC, an ISO date is read back at UTC midnight, which is the previous local day, so `getDay` gives the previous weekday: a Saturday then gets slots and a Monday gets none. East of UTC, between local midnight and the UTC offset (00:00 to 02:00 in Berlin in summer), `toISOString` gives every cell the previous day's date, so the cell shown as Monday gets Sunday's empty slot list. Neither effect is modelled.
- Timers: the 1500 ms simulated booking call and the 5000 ms auto-hide. The call's outcome is an input (`apiThrows`). The simulated call in the widget always resolves. Each auto-hide is a pending-timer count, fired by `HideTimerFires`.
- Asynchrony inside `Sessions`: a submission there runs to its end before the next event. The interleaving is shown only with the class methods `StartSubmission` and `FinishSubmission` (see `DoubleSubmitNotGuarded`).
- `loadAvailableSlots` only logs to the console. The `availableSlots` field is set to `[]` and never read.
- The banner texts are the widget's German strings, kept as constants. Nothing depends on their wording.
- The agent scripts under `agents/` are not part of this model. They print canned reports and contain a verbatim copy of the widget's source.
