/**
 Sessions of the booking widget: the user events the page wires to the widget,
 which of them the rendered page makes possible in a given state, and runs of
 events from a fresh widget. Each submission here runs to its end before the
 next event (the pending booking call is not interleaved).
 */
module Sessions {
  import opened Wrappers
  import opened Calendar
  import opened Slots
  import opened WidgetModel

  /**
   A click on a calendar day (with the draws that decide its slots), a click on a
   time button, typing into the form, a click on the submit button (with the outcome
   of the booking call), or an auto-hide timer firing.
   */
  datatype Event =
    | ClickDay(date: Day, keep: seq<bool>)
    | ClickSlot(time: string)
    | FillForm(name: string, email: string, message: string)
    | ClickSubmit(apiThrows: bool)
    | StatusTimerFires

  /**
   Whether the page offers the event: a day of the rendered window, a time button
   on display, the form and its button only while the form is shown, a timer only
   if one is pending.
   */
  predicate Enabled(today: Day, s: WidgetState, e: Event)
  {
    match e
    case ClickDay(d, keep) => today <= d < today + WindowDays && |keep| == |BaseSlots|
    case ClickSlot(t) => t in s.shownSlots
    case FillForm(_, _, _) => s.formVisible
    case ClickSubmit(_) => s.formVisible
    case StatusTimerFires => s.pendingHides > 0
  }

  /** The state after an offered event. */
  function Apply(today: Day, s: WidgetState, e: Event): WidgetState
    requires Enabled(today, s, e)
  {
    match e
    case ClickDay(d, keep) => SelectDateStep(s, d, keep)
    case ClickSlot(t) => SelectTimeStep(s, t)
    case FillForm(n, m, msg) => s.(name := n, email := m, message := msg)
    case ClickSubmit(apiThrows) => SubmitStep(s, apiThrows)
    case StatusTimerFires => HideStatusStep(s)
  }

  /** The state after the events in order, or `None` if one of them is not offered when it comes. */
  function Run(today: Day, s: WidgetState, events: seq<Event>): Option<WidgetState>
    decreases |events|
  {
    if events == [] then Some(s)
    else if !Enabled(today, s, events[0]) then None
    else Run(today, Apply(today, s, events[0]), events[1..])
  }

  /**
   What holds in every state a session can reach on day `today`: the form is shown
   exactly when a time is selected, a selected date lies in the calendar window,
   every time button and the selected time are base slots, a visible banner has a
   kind, and no loading banner is left showing. The last conjunct holds only because
   `ClickSubmit` runs a whole submission in one step here; in the widget the loading
   banner stays while the booking call is pending.
   */
  ghost predicate Invariant(today: Day, s: WidgetState)
  {
    && (s.formVisible <==> s.selectedTime.Some?)
    && (s.selectedDate.Some? ==> today <= s.selectedDate.value < today + WindowDays)
    && (forall t :: t in s.shownSlots ==> t in BaseSlots)
    && (s.selectedTime.Some? ==> s.selectedTime.value in BaseSlots)
    && (s.statusVisible ==> s.status.Some?)
    && s.status != Some(Loading)
  }

  lemma InitialInvariant(today: Day)
    ensures Invariant(today, Initial())
  {
  }

  /** Every offered event keeps the invariant. */
  lemma ApplyKeepsInvariant(today: Day, s: WidgetState, e: Event)
    requires Invariant(today, s) && Enabled(today, s, e)
    ensures Invariant(today, Apply(today, s, e))
  {
    match e
    case ClickDay(d, keep) =>
      forall t | t in AvailableSlotsForDate(d, keep)
        ensures t in BaseSlots
      {
        OfferedSlotsAreBaseSlots(d, keep, t);
      }
    case ClickSubmit(apiThrows) =>
      if Validate(s).Some? {
        CompleteSubmitOutcome(s, apiThrows);
      }
    case _ =>
  }

  /** Every run from a state satisfying the invariant ends in one that satisfies it. */
  lemma {:induction false} RunKeepsInvariant(today: Day, s: WidgetState, events: seq<Event>)
    requires Invariant(today, s)
    requires Run(today, s, events).Some?
    ensures Invariant(today, Run(today, s, events).value)
    decreases |events|
  {
    if events != [] {
      ApplyKeepsInvariant(today, s, events[0]);
      RunKeepsInvariant(today, Apply(today, s, events[0]), events[1..]);
    }
  }

  /** The invariant holds in every state reachable from a freshly created widget. */
  lemma ReachableStatesSatisfyInvariant(today: Day, events: seq<Event>)
    requires Run(today, Initial(), events).Some?
    ensures Invariant(today, Run(today, Initial(), events).value)
  {
    InitialInvariant(today);
    RunKeepsInvariant(today, Initial(), events);
  }

  /** A run that starts with an offered event continues from the state that event leads to. */
  lemma RunFirst(today: Day, s: WidgetState, events: seq<Event>)
    requires events != [] && Enabled(today, s, events[0])
    ensures Run(today, s, events) == Run(today, Apply(today, s, events[0]), events[1..])
  {
  }

  const AllKept: seq<bool> := [true, true, true, true, true, true, true]

  /** Day 4 (1970-01-05), a Monday. */
  const Monday: Day := 4

  /** Pick Monday and "10:00", fill in name and email, submit, and the booking call returns. */
  const BookingEvents: seq<Event> :=
    [ClickDay(Monday, AllKept), ClickSlot("10:00"), FillForm("Jane Doe", "jane@example.com", ""), ClickSubmit(false)]

  /** The state with Monday and "10:00" picked from a fresh widget. */
  function Picked(): WidgetState
  {
    Initial().(selectedDate := Some(Monday), selectedTime := Some("10:00"), shownSlots := BaseSlots, formVisible := true)
  }

  /**
   A Monday booking: Monday offers all base slots when every draw keeps; picking it
   and "10:00" selects both and shows the form; submitting with name and email and
   a booking call that returns shows the success banner and clears the selection.
   */
  lemma MondayBookingSucceeds()
    ensures AvailableSlotsForDate(Monday, AllKept) == BaseSlots
    ensures Run(Monday, Initial(), BookingEvents[..2]) == Some(Picked())
    ensures Run(Monday, Initial(), BookingEvents).Some?
    ensures Run(Monday, Initial(), BookingEvents).value.status == Some(Success)
    ensures SelectionOf(Run(Monday, Initial(), BookingEvents).value) == SelectionOf(Initial())
    ensures Run(Monday, Initial(), BookingEvents).value.shownSlots == BaseSlots
  {
    KeepAllIsIdentity(BaseSlots, AllKept);
    var s1 := SelectDateStep(Initial(), Monday, AllKept);
    assert s1.shownSlots == BaseSlots;
    assert Enabled(Monday, s1, ClickSlot("10:00")) by { assert BaseSlots[1] == "10:00"; }
    var s2 := SelectTimeStep(s1, "10:00");
    assert s2 == Picked();
    var s3 := s2.(name := "Jane Doe", email := "jane@example.com", message := "");
    assert Validate(s3).Some?;
    CompleteSubmitOutcome(s3, false);
    var s4 := SubmitStep(s3, false);
    var es := BookingEvents;
    RunFirst(Monday, Initial(), es);
    RunFirst(Monday, s1, es[1..]);
    RunFirst(Monday, s2, es[2..]);
    RunFirst(Monday, s3, es[3..]);
    assert es[1..][1..] == es[2..] && es[2..][1..] == es[3..] && es[3..][1..] == [];
    assert Run(Monday, Initial(), es) == Some(s4);
    var pre := es[..2];
    RunFirst(Monday, Initial(), pre);
    RunFirst(Monday, s1, pre[1..]);
    assert pre[1..][1..] == [];
  }

  /** Picking another date after a time keeps the time: a date change does not clear it. */
  lemma DateChangeKeepsTime()
    ensures Run(Monday, Initial(), [ClickDay(Monday, AllKept), ClickSlot("10:00"), ClickDay(Monday + 1, AllKept)])
         == Some(Picked().(selectedDate := Some(Monday + 1)))
  {
    MondayBookingSucceeds();
    var es := [ClickDay(Monday, AllKept), ClickSlot("10:00"), ClickDay(Monday + 1, AllKept)];
    assert es[..2] == BookingEvents[..2];
    RunFirst(Monday, Initial(), es);
    RunFirst(Monday, Apply(Monday, Initial(), es[0]), es[1..]);
    assert es[1..][1..] == es[2..];
    assert AvailableSlotsForDate(Monday + 1, AllKept) == BaseSlots;
    RunFirst(Monday, Picked(), es[2..]);
    assert es[2..][1..] == [];
  }

  /**
   After a successful booking the time buttons of the booked day are still shown,
   so a time can be selected again with no date selected: the state then has a time
   and no date, the form is shown, and a submission from it fails the required-field check.
   */
  lemma TimeWithoutDateIsReachable()
    ensures var s := Run(Monday, Initial(), BookingEvents + [ClickSlot("09:00")]);
            && s.Some? && s.value.selectedTime == Some("09:00") && s.value.selectedDate == None && s.value.formVisible
            && Validate(s.value.(name := "Jane Doe", email := "jane@example.com")).None?
  {
    MondayBookingSucceeds();
    var s := Run(Monday, Initial(), BookingEvents).value;
    assert "09:00" in s.shownSlots by { assert BaseSlots[0] == "09:00"; }
    RunConcat(Monday, Initial(), BookingEvents, [ClickSlot("09:00")]);
    RunFirst(Monday, s, [ClickSlot("09:00")]);
  }

  /** Running two event lists one after the other is running their concatenation. */
  lemma {:induction false} RunConcat(today: Day, s: WidgetState, a: seq<Event>, b: seq<Event>)
    ensures Run(today, s, a + b) == if Run(today, s, a).None? then None else Run(today, Run(today, s, a).value, b)
    decreases |a|
  {
    if a == [] {
      assert a + b == b;
    } else {
      assert (a + b)[0] == a[0] && (a + b)[1..] == a[1..] + b;
      if Enabled(today, s, a[0]) {
        RunConcat(today, Apply(today, s, a[0]), a[1..], b);
      }
    }
  }
}
