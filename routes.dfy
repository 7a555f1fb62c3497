/**
 * The six API handlers as outcomes over the store: each takes the raw path parameter and the
 * parsed JSON body and yields a status code, a reply body and, for POST and PATCH, the new store.
 * Checks run in the handler's order: id, then status, then existence.
 */
module Routes {
  import opened Wrappers
  import opened Schema
  import opened Storage
  import JsMap
  import JsText
  import Seqs

  datatype Reply =
    | BookingReply(booking: Booking)
    | BookingsReply(bookings: seq<Booking>)
    | StatsReply(stats: DashboardStats)
    | MessageReply(message: string)

  datatype Response = Response(code: int, reply: Reply)

  const InvalidBookingData: string := "Invalid booking data"
  const InvalidBookingId: string := "Invalid booking ID"
  const BookingNotFound: string := "Booking not found"
  const InvalidBookingStatus: string := "Invalid booking status"

  /** POST /api/bookings: 400 for a body the insert shape rejects, with the store untouched;
      otherwise 201 with the booking just created, which GET /api/bookings/:id then serves. */
  method PostBooking(store: MemStorage, body: Json, now: int) returns (res: Response)
    requires store.Valid()
    modifies store
    ensures store.Valid()
    ensures store.users == old(store.users) && store.userId == old(store.userId)
    ensures ParseInsertBooking(body).None? ==>
              res == Response(400, MessageReply(InvalidBookingData)) && store.bookings == old(store.bookings)
              && store.bookingId == old(store.bookingId)
    ensures ParseInsertBooking(body).Some? ==>
              && res.code == 201
              && res.reply == BookingReply(NewBooking(ParseInsertBooking(body).value, old(store.bookingId), now))
              && store.bookings == old(store.bookings) + [(old(store.bookingId), res.reply.booking)]
              && store.bookingId == old(store.bookingId) + 1
              && GetBooking(store, JsText.IntToString(res.reply.booking.id)) == Response(200, res.reply)
  {
    var input := ParseInsertBooking(body);
    if input.None? {
      return Response(400, MessageReply(InvalidBookingData));
    }
    var booking := store.CreateBooking(input.value, now);
    JsText.ParseIntNatToString(booking.id);
    res := Response(201, BookingReply(booking));
  }

  /** GET /api/bookings/:id. */
  function GetBooking(store: MemStorage, idParam: string): (res: Response)
    reads store
    ensures res.code == 400 <==> JsText.ParseInt(idParam).None?
    ensures res.code == 400 ==> res.reply == MessageReply(InvalidBookingId)
    ensures res.code == 404 <==> JsText.ParseInt(idParam).Some? && store.GetBookingById(JsText.ParseInt(idParam).value).None?
    ensures res.code == 404 ==> res.reply == MessageReply(BookingNotFound)
    ensures res.code == 200 <==> res.reply.BookingReply?
    ensures res.code == 200 ==> Some(res.reply.booking) == store.GetBookingById(JsText.ParseInt(idParam).value)
    ensures res.code in {200, 400, 404}
  {
    match JsText.ParseInt(idParam)
    case None => Response(400, MessageReply(InvalidBookingId))
    case Some(id) =>
      match store.GetBookingById(id)
      case None => Response(404, MessageReply(BookingNotFound))
      case Some(b) => Response(200, BookingReply(b))
  }

  /** `parseInt` reads only the leading digits, so `/api/bookings/12abc` answers exactly as
      `/api/bookings/12` does. */
  lemma IdParamLeadingDigits(store: MemStorage, d: string, rest: string)
    requires |d| > 0 && JsText.AllRadixDigits(d, false)
    requires rest == [] || !JsText.IsDecimalDigit(rest[0])
    requires !(d == "0" && rest != [] && (rest[0] == 'x' || rest[0] == 'X'))
    ensures GetBooking(store, d + rest) == GetBooking(store, d)
  {
    JsText.ParseIntDecimalRun(d, rest);
    JsText.ParseIntDecimalRun(d, []);
    assert d + [] == d;
  }

  /** GET /api/admin/bookings: every stored booking, newest first. */
  function GetAdminBookings(store: MemStorage): (res: Response)
    reads store
    ensures res.code == 200 && res.reply.BookingsReply?
    ensures multiset(res.reply.bookings) == multiset(JsMap.Values(store.bookings))
    ensures forall i, j :: 0 <= i < j < |res.reply.bookings| ==>
              res.reply.bookings[i].createdAt >= res.reply.bookings[j].createdAt
  {
    Response(200, BookingsReply(store.GetAllBookings()))
  }

  /** GET /api/admin/bookings/status/:status: 400 for a name outside the enum, checked before
      the store is read; otherwise the bookings with that status, soonest service date first. */
  function GetBookingsByStatusRoute(store: MemStorage, statusParam: string, dateKey: string -> int): (res: Response)
    reads store
    ensures res.code == 400 <==> forall s: Status :: StatusName(s) != statusParam
    ensures res.code == 400 ==> res.reply == MessageReply(InvalidBookingStatus)
    ensures res.code != 400 ==> res.code == 200 && res.reply.BookingsReply?
    ensures res.code == 200 ==>
              && ParseStatus(statusParam).Some?
              && multiset(res.reply.bookings) == multiset(WithStatus(JsMap.Values(store.bookings), ParseStatus(statusParam).value))
    ensures res.code == 200 ==> forall b :: b in res.reply.bookings <==>
              b in JsMap.Values(store.bookings) && StatusName(b.status) == statusParam
    ensures res.code == 200 ==> forall i, j :: 0 <= i < j < |res.reply.bookings| ==>
              dateKey(res.reply.bookings[i].serviceDate) <= dateKey(res.reply.bookings[j].serviceDate)
  {
    match ParseStatus(statusParam)
    case None => Response(400, MessageReply(InvalidBookingStatus))
    case Some(s) =>
      var r := store.GetBookingsByStatus(s, dateKey);
      assert forall b :: b in r ==> StatusName(b.status) == statusParam;
      assert forall b :: b in JsMap.Values(store.bookings) && StatusName(b.status) == statusParam ==> b in r by {
        forall b | b in JsMap.Values(store.bookings) && StatusName(b.status) == statusParam ensures b in r {
          StatusNameRoundTrip(b.status);
        }
      }
      Response(200, BookingsReply(r))
  }

  /** PATCH /api/admin/bookings/:id/status: a bad id, then a bad status (400), then an unknown
      booking (404) leave the store untouched; otherwise the booking takes the new status whatever
      its current one, and GET /api/bookings/:id serves the updated record. */
  method PatchStatus(store: MemStorage, idParam: string, body: Json) returns (res: Response)
    requires store.Valid()
    modifies store
    ensures store.Valid()
    ensures res.code != 200 ==> store.bookings == old(store.bookings)
    ensures JsText.ParseInt(idParam).None? ==> res == Response(400, MessageReply(InvalidBookingId))
    ensures JsText.ParseInt(idParam).Some? && ParseStatusJson(Property(body, "status")).None? ==>
              res == Response(400, MessageReply(InvalidBookingStatus))
    ensures JsText.ParseInt(idParam).Some? && ParseStatusJson(Property(body, "status")).Some? ==>
              var id := JsText.ParseInt(idParam).value;
              var s := ParseStatusJson(Property(body, "status")).value;
              && (old(store.GetBookingById(id)).None? ==> res == Response(404, MessageReply(BookingNotFound)))
              && (old(store.GetBookingById(id)).Some? ==>
                    && res == Response(200, BookingReply(old(store.GetBookingById(id)).value.(status := s)))
                    && store.bookings == JsMap.Set(old(store.bookings), id, res.reply.booking)
                    && GetBooking(store, idParam) == res)
    ensures store.users == old(store.users) && store.userId == old(store.userId)
    ensures store.bookingId == old(store.bookingId)
  {
    var id := JsText.ParseInt(idParam);
    if id.None? {
      return Response(400, MessageReply(InvalidBookingId));
    }
    var status := ParseStatusJson(Property(body, "status"));
    if status.None? {
      return Response(400, MessageReply(InvalidBookingStatus));
    }
    var updated := store.UpdateBookingStatus(id.value, status.value);
    if updated.None? {
      return Response(404, MessageReply(BookingNotFound));
    }
    res := Response(200, BookingReply(updated.value));
  }

  /** GET /api/admin/dashboard/stats. */
  function GetDashboardStatsRoute(store: MemStorage, dateKey: string -> int): (res: Response)
    reads store
    ensures res.code == 200 && res.reply.StatsReply?
    ensures res.reply.stats.totalBookings == |store.bookings|
    ensures res.reply.stats.pendingBookings == |WithStatus(JsMap.Values(store.bookings), Pending)|
    ensures res.reply.stats.completedBookings == |WithStatus(JsMap.Values(store.bookings), Completed)|
    ensures res.reply.stats.totalRevenue == PriceSum(Seqs.Filter(JsMap.Values(store.bookings), Earning))
  {
    var stats := store.GetDashboardStats(dateKey);
    RevenueOfEarning(JsMap.Values(store.bookings));
    Response(200, StatsReply(stats))
  }
}
