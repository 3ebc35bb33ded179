/**
 The state of the booking widget as a value, and one function per operation
 giving the state after it. The `BookingWidget` class updates its fields in place
 and each of its methods is specified by the matching function here; the lemmas
 below state what each operation does and does not do.
 */
module WidgetModel {
  import opened Wrappers
  import opened Calendar
  import opened Slots

  /** The `type` of a status banner, which is also its CSS class. */
  datatype StatusKind = Loading | Success | Error

  /** The data handed to the booking call. */
  datatype BookingRequest = BookingRequest(date: Day, time: string, name: string, email: string, message: string)

  /**
   Everything the widget's operations read or change:
   the selection, the time buttons shown for the selected date, the contact form
   (its visibility and the three inputs), and the status banner together with
   the number of auto-hide timers still pending.
   */
  datatype WidgetState = WidgetState(
    selectedDate: Option<Day>,
    selectedTime: Option<string>,
    shownSlots: seq<string>,
    formVisible: bool,
    name: string,
    email: string,
    message: string,
    status: Option<StatusKind>,
    statusText: string,
    statusVisible: bool,
    pendingHides: nat)

  const MissingFieldsText: string := "Bitte füllen Sie alle Pflichtfelder aus."
  const BookingInProgressText: string := "Termin wird gebucht..."
  const BookedText: string := "Termin erfolgreich gebucht! Sie erhalten eine Bestätigung per E-Mail."
  const BookingFailedText: string := "Fehler bei der Buchung. Bitte versuchen Sie es erneut."

  /** The state right after construction: nothing selected, no time buttons, form and banner hidden. */
  function Initial(): WidgetState
  {
    WidgetState(None, None, [], false, "", "", "", None, "", false, 0)
  }

  /** A date click: records the date and shows that date's slots; the chosen time is kept. */
  function SelectDateStep(s: WidgetState, date: Day, keep: seq<bool>): WidgetState
    requires |keep| == |BaseSlots|
  {
    s.(selectedDate := Some(date), shownSlots := AvailableSlotsForDate(date, keep))
  }

  /** A time click: records the time and shows the form; the time is not checked against the slots. */
  function SelectTimeStep(s: WidgetState, time: string): WidgetState
  {
    s.(selectedTime := Some(time), formVisible := true)
  }

  /** Shows a banner; every kind except `Loading` also schedules its auto-hide. */
  function ShowStatusStep(s: WidgetState, kind: StatusKind, text: string): WidgetState
  {
    s.(status := Some(kind), statusText := text, statusVisible := true,
       pendingHides := if kind == Loading then s.pendingHides else s.pendingHides + 1)
  }

  /** One auto-hide timer fires: the banner, whatever it shows now, is hidden. */
  function HideStatusStep(s: WidgetState): WidgetState
    requires s.pendingHides > 0
  {
    s.(statusVisible := false, pendingHides := s.pendingHides - 1)
  }

  /** Clears the three inputs, hides the form and forgets the selection; the time buttons stay. */
  function ResetStep(s: WidgetState): WidgetState
  {
    s.(name := "", email := "", message := "", formVisible := false, selectedDate := None, selectedTime := None)
  }

  /** A string is truthy in the widget's required-field check when it is not empty. */
  predicate Filled(text: string)
  {
    |text| > 0
  }

  /**
   The required-field check of a submission: it passes when name, email, date and
   time are all present, and then yields the data sent to the booking call.
   */
  function Validate(s: WidgetState): (r: Option<BookingRequest>)
    ensures r.Some? <==> Filled(s.name) && Filled(s.email) && s.selectedDate.Some? && s.selectedTime.Some? && Filled(s.selectedTime.value)
    ensures r.Some? ==> r.value.date == s.selectedDate.value && r.value.time == s.selectedTime.value
    ensures r.Some? ==> r.value.name == s.name && r.value.email == s.email && r.value.message == s.message
  {
    if !Filled(s.name) || !Filled(s.email) || s.selectedDate.None? || s.selectedTime.None? || !Filled(s.selectedTime.value) then None
    else Some(BookingRequest(s.selectedDate.value, s.selectedTime.value, s.name, s.email, s.message))
  }

  /** The part of a submission before the booking call: the check, then an error or the loading banner. */
  function StartStep(s: WidgetState): WidgetState
  {
    if Validate(s).None? then ShowStatusStep(s, Error, MissingFieldsText)
    else ShowStatusStep(s, Loading, BookingInProgressText)
  }

  /** The part after the booking call: an error banner if it threw, else the success banner and a reset. */
  function FinishStep(s: WidgetState, apiThrows: bool): WidgetState
  {
    if apiThrows then ShowStatusStep(s, Error, BookingFailedText)
    else ResetStep(ShowStatusStep(s, Success, BookedText))
  }

  /** A whole submission, with nothing else happening while the booking call is pending. */
  function SubmitStep(s: WidgetState, apiThrows: bool): WidgetState
  {
    if Validate(s).None? then StartStep(s) else FinishStep(StartStep(s), apiThrows)
  }

  /** The selection and form part of a state, which a reset clears. */
  function SelectionOf(s: WidgetState): (Option<Day>, Option<string>, bool, string, string, string)
  {
    (s.selectedDate, s.selectedTime, s.formVisible, s.name, s.email, s.message)
  }

  /** The banner part of a state. */
  function BannerOf(s: WidgetState): (Option<StatusKind>, string, bool, nat)
  {
    (s.status, s.statusText, s.statusVisible, s.pendingHides)
  }

  /** Selecting a date sets the date and the shown slots and nothing else; the time stays as it was. */
  lemma SelectDateKeepsTime(s: WidgetState, date: Day, keep: seq<bool>)
    requires |keep| == |BaseSlots|
    ensures SelectDateStep(s, date, keep).selectedDate == Some(date)
    ensures SelectDateStep(s, date, keep).selectedTime == s.selectedTime
    ensures SelectDateStep(s, date, keep).shownSlots == AvailableSlotsForDate(date, keep)
    ensures SelectDateStep(s, date, keep).(selectedDate := s.selectedDate, shownSlots := s.shownSlots) == s
  {
  }

  /** Selecting a time sets it and shows the form, whether or not it is among the shown slots. */
  lemma SelectTimeUnchecked(s: WidgetState, time: string)
    ensures SelectTimeStep(s, time).selectedTime == Some(time)
    ensures SelectTimeStep(s, time).formVisible
    ensures SelectTimeStep(s, time).(selectedTime := s.selectedTime, formVisible := s.formVisible) == s
  {
  }

  /** A banner is shown with its kind and text, and an auto-hide is scheduled exactly when it is not `Loading`. */
  lemma ShowStatusSchedulesHide(s: WidgetState, kind: StatusKind, text: string)
    ensures BannerOf(ShowStatusStep(s, kind, text)).0 == Some(kind) && ShowStatusStep(s, kind, text).statusVisible
    ensures ShowStatusStep(s, kind, text).statusText == text
    ensures ShowStatusStep(s, kind, text).pendingHides == s.pendingHides + (if kind == Loading then 0 else 1)
    ensures SelectionOf(ShowStatusStep(s, kind, text)) == SelectionOf(s)
    ensures ShowStatusStep(s, kind, text).shownSlots == s.shownSlots
  {
  }

  /**
   A reset clears the selection and the form to exactly what a new widget has,
   leaves the banner and the time buttons alone, and a second reset changes nothing.
   */
  lemma ResetProperties(s: WidgetState)
    ensures SelectionOf(ResetStep(s)) == SelectionOf(Initial())
    ensures BannerOf(ResetStep(s)) == BannerOf(s) && ResetStep(s).shownSlots == s.shownSlots
    ensures ResetStep(ResetStep(s)) == ResetStep(s)
  {
  }

  /** A submission that fails the check only shows the error banner; no booking call is made. */
  lemma IncompleteSubmitRejected(s: WidgetState, apiThrows: bool)
    requires Validate(s).None?
    ensures SubmitStep(s, apiThrows) == ShowStatusStep(s, Error, MissingFieldsText)
    ensures SelectionOf(SubmitStep(s, apiThrows)) == SelectionOf(s)
    ensures SubmitStep(s, apiThrows).status == Some(Error)
  {
  }

  /**
   A submission that passes the check shows the loading banner before the call;
   when the call returns it ends with the success banner and a reset selection,
   and when it throws with the error banner and the selection kept.
   */
  lemma CompleteSubmitOutcome(s: WidgetState, apiThrows: bool)
    requires Validate(s).Some?
    ensures StartStep(s).status == Some(Loading) && SelectionOf(StartStep(s)) == SelectionOf(s)
    ensures SubmitStep(s, apiThrows) == FinishStep(StartStep(s), apiThrows)
    ensures !apiThrows ==> SubmitStep(s, apiThrows).status == Some(Success) && SelectionOf(SubmitStep(s, apiThrows)) == SelectionOf(Initial())
    ensures apiThrows ==> SubmitStep(s, apiThrows).status == Some(Error) && SelectionOf(SubmitStep(s, apiThrows)) == SelectionOf(s)
    ensures SubmitStep(s, apiThrows).pendingHides == s.pendingHides + 1
  {
  }

  /**
   Starting a submission does not guard against one already in flight: from any
   state that passes the check, the loading banner is shown and the state still
   passes the check with the same request, so a second start sends it again.
   */
  lemma StartDoesNotGuardInFlight(s: WidgetState)
    requires Validate(s).Some?
    ensures StartStep(s).status == Some(Loading)
    ensures Validate(StartStep(s)) == Validate(s)
  {
  }
}
