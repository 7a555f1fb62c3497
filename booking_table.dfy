/**
 * The admin booking table: the status tab and search box that filter the fetched list, and the
 * status changes each row offers.
 */
module BookingTable {
  import opened Wrappers
  import opened Schema
  import JsText
  import Seqs

  /** The selected tab: `"all"` or one status. */
  datatype StatusFilter = All | Only(status: Status)

  function PassesTab(filter: StatusFilter): Booking -> bool {
    (b: Booking) => filter.All? || b.status == filter.status
  }

  /** The search test of one booking: an empty term passes everything; otherwise the lowercased
      term must occur in the lowercased first name, last name, email or address, or in the id's
      decimal text. */
  predicate SearchMatches(term: string, b: Booking) {
    if term == [] then true
    else
      var needle := JsText.ToLower(term);
      JsText.Includes(JsText.ToLower(b.firstName), needle)
      || JsText.Includes(JsText.ToLower(b.lastName), needle)
      || JsText.Includes(JsText.ToLower(b.email), needle)
      || JsText.Includes(JsText.ToLower(b.address), needle)
      || JsText.Includes(JsText.IntToString(b.id), needle)
  }

  function PassesSearch(term: string): Booking -> bool {
    (b: Booking) => SearchMatches(term, b)
  }

  /** `filteredBookings`: nothing until the list has been fetched, then the tab filter followed by
      the search filter. */
  function FilteredBookings(fetched: Option<seq<Booking>>, filter: StatusFilter, term: string): (r: seq<Booking>)
    ensures fetched.None? ==> r == []
    ensures fetched.Some? ==> Seqs.IsSubsequence(r, fetched.value)
    ensures forall b :: b in r <==>
              fetched.Some? && b in fetched.value && (filter.All? || b.status == filter.status)
              && SearchMatches(term, b)
  {
    match fetched
    case None => []
    case Some(bs) =>
      var tabbed := Seqs.Filter(bs, PassesTab(filter));
      var r := Seqs.Filter(tabbed, PassesSearch(term));
      Seqs.FilterIsSubsequence(bs, PassesTab(filter));
      Seqs.FilterIsSubsequence(tabbed, PassesSearch(term));
      Seqs.SubsequenceTransitive(r, tabbed, bs);
      Seqs.FilterMembers(bs, PassesTab(filter));
      Seqs.FilterMembers(tabbed, PassesSearch(term));
      r
  }

  /** With an empty search term the search filter drops nothing. */
  lemma EmptyTermKeepsTab(bs: seq<Booking>, filter: StatusFilter)
    ensures FilteredBookings(Some(bs), filter, "") == Seqs.Filter(bs, PassesTab(filter))
  {
    Seqs.FilterKeepsAll(Seqs.Filter(bs, PassesTab(filter)), PassesSearch(""));
  }

  /** The `All` tab with an empty search shows the fetched list as it is. */
  lemma AllTabShowsEverything(bs: seq<Booking>)
    ensures FilteredBookings(Some(bs), All, "") == bs
  {
    EmptyTermKeepsTab(bs, All);
    Seqs.FilterKeepsAll(bs, PassesTab(All));
  }

  /** The search is case-insensitive in the term. */
  lemma SearchIgnoresTermCase(term: string, b: Booking)
    ensures SearchMatches(JsText.ToLower(term), b) == SearchMatches(term, b)
  {
    JsText.ToLowerIdempotent(term);
  }

  /** Where "View Details" navigates: `/admin/bookings/${booking.id}`. */
  function DetailPath(id: int): string {
    "/admin/bookings/" + JsText.IntToString(id)
  }

  /** A row's action buttons; `Invoice` has no click handler and changes nothing. */
  datatype RowAction = RowAction(title: string, target: Option<Status>)

  /** The buttons after "View Details", by the row's status, in render order. */
  function RowActions(s: Status): seq<RowAction> {
    match s
    case Pending => [RowAction("Approve", Some(Approved)), RowAction("Cancel", Some(Cancelled))]
    case Approved => [RowAction("Mark Complete", Some(Completed)), RowAction("Cancel", Some(Cancelled))]
    case Completed => [RowAction("Invoice", None)]
    case Cancelled => [RowAction("Restore", Some(Pending))]
  }

  /** The statuses a row offers to move to. */
  function OfferedTransitions(s: Status): (r: set<Status>)
    ensures forall t :: t in r <==> exists a :: a in RowActions(s) && a.target == Some(t)
  {
    match s
    case Pending =>
      assert RowActions(s)[0].target == Some(Approved) && RowActions(s)[1].target == Some(Cancelled);
      {Approved, Cancelled}
    case Approved =>
      assert RowActions(s)[0].target == Some(Completed) && RowActions(s)[1].target == Some(Cancelled);
      {Completed, Cancelled}
    case Completed => {}
    case Cancelled =>
      assert RowActions(s)[0].target == Some(Pending);
      {Pending}
  }

  /** No row offers its own status; a completed booking offers nothing; a cancelled booking can
      only be restored to pending. */
  lemma OfferedTransitionsShape(s: Status)
    ensures s !in OfferedTransitions(s)
    ensures OfferedTransitions(Completed) == {}
    ensures OfferedTransitions(Cancelled) == {Pending}
  {
  }

  /** The PATCH request a row action sends: the id in the path and `{ status }` as the body. */
  function StatusRequest(id: int, target: Status): (string, Json) {
    (JsText.IntToString(id), JObject(map["status" := JStr(StatusName(target))]))
  }

  /** The request carries the row's id and chosen status through the route's parsing intact. */
  lemma StatusRequestParses(id: nat, target: Status)
    ensures JsText.ParseInt(StatusRequest(id, target).0) == Some(id)
    ensures ParseStatusJson(Property(StatusRequest(id, target).1, "status")) == Some(target)
  {
    JsText.ParseIntNatToString(id);
    StatusNameRoundTrip(target);
  }
}
