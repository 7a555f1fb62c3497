/**
 * The page a customer lands on after booking: `/booking-confirmation/:id` fetches the booking and
 * shows a spinner, a not-found card, the summary, or nothing.
 */
module BookingConfirmation {
  import opened Wrappers
  import opened Schema
  import JsText
  import Labels
  import Storage
  import Routes
  import BookingForm
  import BookingDetail

  /** The summary lines that do not depend on date or currency formatting. */
  datatype Summary = Summary(bookingId: string, service: string, time: string, address: string)

  function SummaryOf(b: Booking): (s: Summary)
    ensures |s.bookingId| >= 5 && s.bookingId[0] == '#' && s.bookingId[1..] == Labels.PadId(b.id)
    ensures b.id >= 0 ==> JsText.ParseInt(s.bookingId[1..]) == Some(b.id)
  {
    var idLine := "#" + Labels.PadId(b.id);
    assert idLine[1..] == Labels.PadId(b.id);
    Summary(idLine, Labels.ServiceTypeLabel(b.serviceType), Labels.TimeLabel(b.serviceTime),
            b.address + ", " + b.city + ", " + b.zipCode)
  }

  /** A booking made through the form names its service and slot by the titles the form showed. */
  lemma SummaryUsesFormTitles(b: Booking, svc: BookingForm.Service, slot: BookingForm.TimeSlot)
    requires svc in BookingForm.Services && svc.id == b.serviceType
    requires slot in BookingForm.TimeSlots && slot.value == b.serviceTime
    ensures SummaryOf(b).service == svc.title && SummaryOf(b).time == slot.caption
  {
    BookingForm.ServiceTitlesAreLabels();
    BookingForm.TimeSlotLabelsAreLabels();
  }

  datatype ConfirmationView = Spinner | NotFoundCard | Confirmed(summary: Summary) | Blank

  /** Loading first, then an error, then the booking; with neither an error nor a booking the page
      renders nothing. */
  function View(isLoading: bool, error: bool, booking: Option<Booking>): (v: ConfirmationView)
    ensures isLoading ==> v == Spinner
    ensures !isLoading && error ==> v == NotFoundCard
    ensures v.Confirmed? <==> !isLoading && !error && booking.Some?
    ensures v.Confirmed? ==> v.summary == SummaryOf(booking.value)
    ensures v == Blank <==> !isLoading && !error && booking.None?
  {
    if isLoading then Spinner
    else if error then NotFoundCard
    else if booking.Some? then Confirmed(SummaryOf(booking.value))
    else Blank
  }

  /** The redirect to `/booking-confirmation/${data.id}` after a successful post confirms the
      booking the store holds under that id. */
  lemma ConfirmsStoredBooking(store: Storage.MemStorage, id: nat)
    ensures var f := BookingDetail.FetchOutcome(Routes.GetBooking(store, JsText.IntToString(id)));
            View(false, f.error, f.booking)
              == if store.GetBookingById(id).Some? then Confirmed(SummaryOf(store.GetBookingById(id).value)) else NotFoundCard
  {
    JsText.ParseIntNatToString(id);
  }

  /** Without an error and without data the two pages differ: the detail page says "Booking Not
      Found", the confirmation page shows nothing. */
  lemma EmptyAnswerDiffers()
    ensures BookingDetail.View(false, false, None) == BookingDetail.NotFound
    ensures View(false, false, None) == Blank
  {
  }
}
