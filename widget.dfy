/**
 The booking widget object. Its fields are the ones the widget updates in place;
 every method changes them step by step as the widget does and is specified by
 the matching function of `WidgetModel` over the state before the call.
 */
module Widget {
  import opened Wrappers
  import opened Calendar
  import opened Slots
  import opened WidgetModel

  class BookingWidget {
    /** The grid cells rendered when the widget is created. */
    const calendar: seq<Cell>

    var selectedDate: Option<Day>
    var selectedTime: Option<string>
    /** The time buttons currently shown, one per slot of the last selected date. */
    var shownSlots: seq<string>
    var formVisible: bool
    /** Contents of the name, email and message inputs. */
    var name: string
    var email: string
    var message: string
    /** The status banner: its kind (CSS class), text, visibility, and auto-hide timers not yet fired. */
    var status: Option<StatusKind>
    var statusText: string
    var statusVisible: bool
    var pendingHides: nat

    /** The fields as one value. */
    function State(): WidgetState
      reads this
    {
      WidgetState(selectedDate, selectedTime, shownSlots, formVisible, name, email, message,
                  status, statusText, statusVisible, pendingHides)
    }

    /** Creates the widget on day `today`: renders the calendar and starts with nothing selected. */
    constructor (today: Day)
      ensures CalendarLayout(today, calendar)
      ensures State() == Initial()
    {
      var cells := RenderCalendar(today);
      calendar := cells;
      selectedDate := None;
      selectedTime := None;
      shownSlots := [];
      formVisible := false;
      name, email, message := "", "", "";
      status := None;
      statusText := "";
      statusVisible := false;
      pendingHides := 0;
    }

    /** Selects `date` and shows its slots, `keep` standing for the per-slot random draws. */
    method SelectDate(date: Day, keep: seq<bool>)
      requires |keep| == |BaseSlots|
      modifies this
      ensures State() == SelectDateStep(old(State()), date, keep)
    {
      selectedDate := Some(date);
      shownSlots := AvailableSlotsForDate(date, keep);
    }

    /** Selects `time` and shows the booking form. */
    method SelectTime(time: string)
      modifies this
      ensures State() == SelectTimeStep(old(State()), time)
    {
      selectedTime := Some(time);
      formVisible := true;
    }

    /** Shows a banner; all kinds but `Loading` schedule an auto-hide. */
    method ShowStatus(text: string, kind: StatusKind)
      modifies this
      ensures State() == ShowStatusStep(old(State()), kind, text)
    {
      status := Some(kind);
      statusText := text;
      statusVisible := true;
      if kind != Loading {
        pendingHides := pendingHides + 1;
      }
    }

    /** One scheduled auto-hide fires. */
    method HideTimerFires()
      requires pendingHides > 0
      modifies this
      ensures State() == HideStatusStep(old(State()))
    {
      statusVisible := false;
      pendingHides := pendingHides - 1;
    }

    /** Clears the form inputs, hides the form and forgets the selected date and time. */
    method ResetForm()
      modifies this
      ensures State() == ResetStep(old(State()))
    {
      name := "";
      email := "";
      message := "";
      formVisible := false;
      selectedDate := None;
      selectedTime := None;
    }

    /**
     The submission up to the booking call: returns the request handed to the
     call, or `None` when the required-field check failed and no call is made.
     */
    method StartSubmission() returns (request: Option<BookingRequest>)
      modifies this
      ensures request == Validate(old(State()))
      ensures State() == StartStep(old(State()))
    {
      if !Filled(name) || !Filled(email) || selectedDate.None? || selectedTime.None? || !Filled(selectedTime.value) {
        ShowStatus(MissingFieldsText, Error);
        return None;
      }
      request := Some(BookingRequest(selectedDate.value, selectedTime.value, name, email, message));
      ShowStatus(BookingInProgressText, Loading);
    }

    /** The submission after the booking call returned (`apiThrows` false) or threw. */
    method FinishSubmission(apiThrows: bool)
      modifies this
      ensures State() == FinishStep(old(State()), apiThrows)
    {
      if apiThrows {
        ShowStatus(BookingFailedText, Error);
      } else {
        ShowStatus(BookedText, Success);
        ResetForm();
      }
    }

    /** A whole submission whose booking call ends before anything else happens. */
    method SubmitBooking(apiThrows: bool) returns (request: Option<BookingRequest>)
      modifies this
      ensures request == Validate(old(State()))
      ensures State() == SubmitStep(old(State()), apiThrows)
    {
      request := StartSubmission();
      if request.Some? {
        FinishSubmission(apiThrows);
      }
    }
  }

  /**
   Two clicks on the submit button while the first booking call is still pending:
   nothing stops the second, so the same booking is handed to the booking call twice.
   */
  method DoubleSubmitNotGuarded() returns (first: Option<BookingRequest>, second: Option<BookingRequest>)
    ensures first.Some? && second == first
    ensures first.value == BookingRequest(4, "10:00", "Jane Doe", "jane@example.com", "")
  {
    var w := new BookingWidget(4);
    w.SelectDate(4, [true, true, true, true, true, true, true]);
    w.SelectTime("10:00");
    w.name := "Jane Doe";
    w.email := "jane@example.com";
    first := w.StartSubmission();
    assert w.status == Some(Loading);
    second := w.StartSubmission();
  }
}
