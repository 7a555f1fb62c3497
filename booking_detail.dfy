/**
 * The admin booking detail page: the id read from the path, whether the booking is fetched, which
 * view is shown, and the lawn-size and lawn-condition texts.
 */
module BookingDetail {
  import opened Wrappers
  import opened Schema
  import JsText
  import Labels
  import Storage
  import Routes
  import BookingTable
  import BookingForm

  /** The literal part of the pattern `/\/admin\/bookings\/(\d+)/`. */
  const Prefix: string := "/admin/bookings/"

  /** The pattern matches at `i`: the literal text, then at least one ASCII digit. */
  predicate MatchesAt(path: string, i: nat) {
    JsText.OccursAt(path, Prefix, i) && i + |Prefix| < |path| && JsText.IsDecimalDigit(path[i + |Prefix|])
  }

  /** The leftmost position at or after `from` where the unanchored pattern matches. */
  function FirstMatch(path: string, from: nat): (r: Option<nat>)
    requires from <= |path|
    ensures r.Some? ==> from <= r.value < |path| && MatchesAt(path, r.value)
                        && forall j :: from <= j < r.value ==> !MatchesAt(path, j)
    ensures r.None? ==> forall j :: from <= j < |path| ==> !MatchesAt(path, j)
    decreases |path| - from
  {
    if from == |path| then None
    else if MatchesAt(path, from) then Some(from)
    else FirstMatch(path, from + 1)
  }

  /** `path.match(...)` then `parseInt(match[1])`: the greedy digit run after the leftmost match,
      or `null` when the pattern does not occur. */
  function ExtractBookingId(path: string): (r: Option<int>)
    ensures r.None? <==> forall i :: 0 <= i < |path| ==> !MatchesAt(path, i)
    ensures r.Some? ==>
              (exists i :: 0 <= i < |path| && MatchesAt(path, i)
                 && (forall j :: 0 <= j < i ==> !MatchesAt(path, j))
                 && r.value == JsText.DigitsValue(JsText.DigitPrefix(path[i + |Prefix|..], false), false))
  {
    match FirstMatch(path, 0)
    case None => None
    case Some(i) =>
      var digits := JsText.DigitPrefix(path[i + |Prefix|..], false);
      assert digits != [] by { assert path[i + |Prefix|..][0] == path[i + |Prefix|]; }
      assert digits + [] == digits;
      JsText.ParseIntDecimalRun(digits, []);
      JsText.ParseInt(digits)
  }

  /** `enabled: !!bookingId`: no id, or the id 0, fetches nothing. */
  predicate QueryEnabled(bookingId: Option<int>) {
    bookingId.Some? && bookingId.value != 0
  }

  /** The table's "View Details" link leads back to the row's id. */
  lemma DetailPathRoundTrip(id: nat)
    ensures ExtractBookingId(BookingTable.DetailPath(id)) == Some(id)
  {
    var path := BookingTable.DetailPath(id);
    var digits := JsText.NatToString(id);
    assert path == Prefix + digits;
    assert path[|Prefix|..] == digits + [];
    assert path[..|Prefix|] == Prefix;
    assert MatchesAt(path, 0) by { assert path[|Prefix|] == digits[0]; }
    JsText.DigitPrefixOfRun(digits, [], false);
    JsText.NatToStringValue(id);
  }

  /** Every id the table links to is fetched, except 0, which `!!bookingId` treats as no id. */
  lemma DetailPathFetches(id: nat)
    ensures QueryEnabled(ExtractBookingId(BookingTable.DetailPath(id))) <==> id != 0
  {
    DetailPathRoundTrip(id);
  }

  /** The fetch of `/api/bookings/${bookingId}` succeeds exactly when the store holds the id. */
  lemma DetailFetchFindsStored(store: Storage.MemStorage, id: nat)
    ensures Routes.GetBooking(store, JsText.IntToString(id)).code == 200 <==> store.GetBookingById(id).Some?
  {
    JsText.ParseIntNatToString(id);
  }

  /** `getLawnSizeLabel`. */
  function LawnSizeLabel(size: int): (r: string)
    ensures r == "Small (under 1,000 sq ft)" <==> size < 1000
    ensures r == "Medium (1,000 - 5,000 sq ft)" <==> 1000 <= size < 5000
    ensures r == "Large (5,000 - 10,000 sq ft)" <==> 5000 <= size < 10000
    ensures r == "Very Large (over 10,000 sq ft)" <==> size >= 10000
  {
    if size < 1000 then "Small (under 1,000 sq ft)"
    else if size < 5000 then "Medium (1,000 - 5,000 sq ft)"
    else if size < 10000 then "Large (5,000 - 10,000 sq ft)"
    else "Very Large (over 10,000 sq ft)"
  }

  /** `booking.lawnCondition || "Not specified"`: null and the empty string are both falsy. */
  function LawnConditionText(condition: Option<string>): (r: string)
    ensures condition.None? || condition.value == "" ==> r == "Not specified"
    ensures condition.Some? && condition.value != "" ==> r == condition.value
  {
    if condition.Some? && condition.value != "" then condition.value else "Not specified"
  }

  /** `booking.obstacles && (...)`: the "Obstacles or Hazards" section, holding the text as it
      was stored, appears only for a non-empty text; null and the empty string are both falsy. */
  function ObstaclesSection(obstacles: Option<string>): (r: Option<string>)
    ensures r.Some? <==> obstacles.Some? && obstacles.value != ""
    ensures r.Some? ==> r.value == obstacles.value
  {
    if obstacles.Some? && obstacles.value != "" then obstacles else None
  }

  /** A customer who leaves the form's obstacles field as it starts gets no obstacles section on
      the admin page. */
  lemma UntouchedObstaclesHidden(today: string)
    ensures ObstaclesSection(BookingForm.DefaultValues(today).booking.obstacles).None?
  {
  }

  /** What a page's query holds once `/api/bookings/:id` has answered: a non-2xx answer is an
      error with no data, a 2xx answer carries the booking in its body. */
  datatype Fetch = Fetch(error: bool, booking: Option<Booking>)

  function FetchOutcome(res: Routes.Response): (f: Fetch)
    ensures f.error <==> !(200 <= res.code < 300 && res.reply.BookingReply?)
    ensures f.booking.Some? <==> !f.error
    ensures f.booking.Some? ==> res.reply == Routes.BookingReply(f.booking.value)
  {
    if 200 <= res.code < 300 && res.reply.BookingReply? then Fetch(false, Some(res.reply.booking))
    else Fetch(true, None)
  }

  datatype DetailView = Spinner | NotFound | Details(booking: Booking)

  /** Loading first, then an error or a missing booking, then the details. */
  function View(isLoading: bool, error: bool, booking: Option<Booking>): (v: DetailView)
    ensures isLoading ==> v == Spinner
    ensures !isLoading && (error || booking.None?) ==> v == NotFound
    ensures v.Details? <==> !isLoading && !error && booking.Some?
    ensures v.Details? ==> v.booking == booking.value
  {
    if isLoading then Spinner
    else if error || booking.None? then NotFound
    else Details(booking.value)
  }

  /** Following the table's link to a stored booking shows that booking's details; a link to an
      id the store does not hold shows "Booking Not Found". */
  lemma DetailPageShowsStored(store: Storage.MemStorage, id: nat)
    requires id != 0
    ensures var f := FetchOutcome(Routes.GetBooking(store, JsText.IntToString(id)));
            View(false, f.error, f.booking) == if store.GetBookingById(id).Some? then Details(store.GetBookingById(id).value) else NotFound
  {
    DetailPathFetches(id);
    JsText.ParseIntNatToString(id);
  }

  /** The zero-padded id the pages display (`#0007`) names the same booking as the plain id. */
  lemma PaddedIdFetchesSame(store: Storage.MemStorage, id: nat)
    ensures Routes.GetBooking(store, Labels.PadId(id)) == Routes.GetBooking(store, JsText.IntToString(id))
  {
    JsText.ParseIntNatToString(id);
  }

  /** The page heading: `Booking #` and the padded id. */
  function Heading(b: Booking): (r: string)
    ensures |r| >= |"Booking #"| + 4 && r[..|"Booking #"|] == "Booking #"
    ensures r[|"Booking #"|..] == Labels.PadId(b.id)
    ensures b.id >= 0 ==> JsText.ParseInt(r[|"Booking #"|..]) == Some(b.id)
  {
    var title := "Booking #" + Labels.PadId(b.id);
    assert title[|"Booking #"|..] == Labels.PadId(b.id);
    assert title[..|"Booking #"|] == "Booking #";
    title
  }
}
