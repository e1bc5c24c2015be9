/** The submit handler of `BorrowModal.js`: three checks run in order, the
    first failing one sets the error, and only when all pass is the form
    handed to `onSubmit`. Form values are compared the way JavaScript
    compares them: dates become instants through `new Date(...)`, and an
    empty or unparsable value becomes NaN, for which every comparison is
    false. */
module BorrowModal {
  import opened Results
  import opened Records
  import Text

  /** A form value as JavaScript compares it: `None` is NaN. */
  type Number = Option<int>

  /** JavaScript `a < b` on numbers. */
  predicate Below(a: Number, b: Number) {
    a.Some? && b.Some? && a.value < b.value
  }

  /** JavaScript `a <= b` on numbers. */
  predicate AtMost(a: Number, b: Number) {
    a.Some? && b.Some? && a.value <= b.value
  }

  datatype BorrowForm = BorrowForm(quantityRequested: Number, startDate: Number, endDate: Number, notes: string)

  /** The form as the modal opens: quantity 1, empty dates and notes. */
  const InitialForm := BorrowForm(Some(1), None, None, "")

  const PastStart := "Start date cannot be in the past"
  const EndNotAfterStart := "End date must be after start date"
  const SubmitFailed := "Failed to create borrow request"

  const MillisPerDay := 86400000

  /** The quantity error, which quotes the count available now. */
  function QuantityMessage(available: int): string {
    "Only " + Text.IntToDecimal(available) + " items available"
  }

  /** The count a quantity error quotes can be read back from it. */
  lemma QuantityMessageReportsCount(available: int)
    ensures var m := QuantityMessage(available);
      |m| > 21 && Text.ParseDecimal(m[5..|m| - 16]) == Some(available)
  {
    var m := QuantityMessage(available);
    assert m[5..|m| - 16] == Text.IntToDecimal(available);
    Text.DecimalRoundTrip(available);
  }

  /** The validation part of `handleSubmit`: the message of the first check
      that fails, or `None` when the form may be submitted. */
  function Validate(form: BorrowForm, available: int, now: Timestamp): (r: Option<string>)
    ensures r.None? <==>
      !Below(Some(available), form.quantityRequested) && !Below(form.startDate, Some(now))
      && !AtMost(form.endDate, form.startDate)
    ensures Below(Some(available), form.quantityRequested) ==> r == Some(QuantityMessage(available))
    ensures !Below(Some(available), form.quantityRequested) && Below(form.startDate, Some(now)) ==> r == Some(PastStart)
    ensures (!Below(Some(available), form.quantityRequested) && !Below(form.startDate, Some(now))
      && AtMost(form.endDate, form.startDate)) ==> r == Some(EndNotAfterStart)
  {
    if Below(Some(available), form.quantityRequested) then Some(QuantityMessage(available))
    else if Below(form.startDate, Some(now)) then Some(PastStart)
    else if AtMost(form.endDate, form.startDate) then Some(EndNotAfterStart)
    else None
  }

  /** For a form whose values are all numbers, it is accepted exactly when
      the quantity does not exceed the available count, the start is not
      before now and the end is after the start. */
  lemma AcceptedIff(q: int, start: Timestamp, end: Timestamp, notes: string, available: int, now: Timestamp)
    ensures Validate(BorrowForm(Some(q), Some(start), Some(end), notes), available, now).None?
      <==> q <= available && now <= start && start < end
  {
  }

  /** The handler sets no lower bound on the quantity: zero or a negative
      count passes when the dates do. */
  lemma NoLowerBoundOnQuantity(q: int, start: Timestamp, end: Timestamp, available: int, now: Timestamp)
    requires q <= 0 <= available && now <= start < end
    ensures Validate(BorrowForm(Some(q), Some(start), Some(end), ""), available, now).None?
  {
  }

  /** Empty dates compare as NaN, so the untouched form passes the handler's
      own checks whenever one item is available; only the inputs' `required`
      attribute stops it in the browser. */
  lemma EmptyDatesPassHandler(available: int, now: Timestamp)
    requires available >= 1
    ensures Validate(InitialForm, available, now).None?
  {
  }

  /** A picked date is midnight UTC while `now` has a time of day, so today's
      date, the earliest the date picker offers, is refused at any moment
      after midnight. */
  lemma TodayRefusedAfterMidnight(form: BorrowForm, available: int, now: Timestamp)
    requires now % MillisPerDay != 0
    requires form.startDate == Some(now - now % MillisPerDay)
    requires !Below(Some(available), form.quantityRequested)
    ensures Validate(form, available, now) == Some(PastStart)
  {
  }

  /** How the `onSubmit` call ended: it resolved, or it threw with the
      server's error text (empty when the response carried none). */
  datatype SubmitOutcome = Resolved | Threw(serverError: string)

  /** What the handler leaves behind: the error shown and the forms passed
      to `onSubmit`. */
  datatype ModalState = ModalState(error: string, submitted: seq<BorrowForm>)

  /** `handleSubmit`: clears the error, validates against the item's
      available count, and calls `onSubmit` with the unchanged form only when
      every check passes. */
  function HandleSubmit(form: BorrowForm, item: Equipment, now: Timestamp, outcome: SubmitOutcome): (r: ModalState)
    ensures Validate(form, item.availableQuantity, now).Some? ==>
      r.submitted == [] && r.error == Validate(form, item.availableQuantity, now).value
    ensures Validate(form, item.availableQuantity, now).None? ==> r.submitted == [form]
    ensures Validate(form, item.availableQuantity, now).None? && outcome == Resolved ==> r.error == ""
    ensures Validate(form, item.availableQuantity, now).None? && outcome.Threw? ==>
      r.error == if outcome.serverError != "" then outcome.serverError else SubmitFailed
    ensures r.error == "" ==> |r.submitted| == 1
  {
    match Validate(form, item.availableQuantity, now)
    case Some(message) => ModalState(message, [])
    case None =>
      match outcome
      case Resolved => ModalState("", [form])
      case Threw(e) => ModalState(if e != "" then e else SubmitFailed, [form])
  }
}
