/**
 * The in-memory store `MemStorage`: users and bookings kept in two `Map`s keyed by id, with two
 * counters that hand out ids. Creation and status update change the store in place; the queries
 * are expressions over a snapshot of the map values.
 */
module Storage {
  import opened Wrappers
  import opened Schema
  import JsMap
  import Seqs
  import Sorting

  const AdminUsername: string := "admin@robomow.com"
  const AdminPassword: string := "adminpassword"

  datatype DashboardStats = DashboardStats(
    totalBookings: nat, pendingBookings: nat, completedBookings: nat, totalRevenue: real)

  /** Sort key of `getAllBookings`: newest `createdAt` first. */
  function NewestFirst(b: Booking): int { -b.createdAt }

  function BookingId(b: Booking): int { b.id }

  /** Sort key of `getBookingsByStatus`: soonest service date first; `dateKey` is the
      `new Date(serviceDate).getTime()` the comparator computes. */
  function SoonestFirst(dateKey: string -> int): Booking -> int {
    (b: Booking) => dateKey(b.serviceDate)
  }

  function StatusIs(s: Status): Booking -> bool {
    (b: Booking) => b.status == s
  }

  /** The bookings whose status is `s`, in their original order. */
  function WithStatus(bs: seq<Booking>, s: Status): seq<Booking> {
    Seqs.Filter(bs, StatusIs(s))
  }

  /** What one booking adds to the revenue: its price when approved or completed, else nothing. */
  function Earned(b: Booking): real {
    if b.status == Completed || b.status == Approved then b.price else 0.0
  }

  /** The `reduce` over the bookings, from the left, starting at 0. */
  function Revenue(bs: seq<Booking>): real {
    if bs == [] then 0.0 else Revenue(bs[..|bs| - 1]) + Earned(bs[|bs| - 1])
  }

  /** `Array.from(users.values()).find(u => u.username === username)`. */
  function FindByUsername(us: seq<User>, username: string): (r: Option<User>)
    ensures r.None? <==> forall i :: 0 <= i < |us| ==> us[i].username != username
    ensures r.Some? ==> exists i :: 0 <= i < |us| && us[i] == r.value && r.value.username == username
                          && forall j :: 0 <= j < i ==> us[j].username != username
  {
    if us == [] then None
    else if us[0].username == username then Some(us[0])
    else
      var r := FindByUsername(us[1..], username);
      assert r.Some? ==> exists i :: 0 <= i < |us[1..]| && us[1..][i] == r.value && r.value.username == username
                          && forall j :: 0 <= j < i ==> us[1..][j].username != username;
      assert r.Some? ==> exists i :: 1 <= i < |us| && us[i] == r.value && r.value.username == username
                          && forall j :: 0 <= j < i ==> us[j].username != username by {
        if r.Some? {
          var i :| 0 <= i < |us[1..]| && us[1..][i] == r.value && r.value.username == username
                   && forall j :: 0 <= j < i ==> us[1..][j].username != username;
          assert us[i + 1] == r.value;
          forall j | 0 <= j < i + 1 ensures us[j].username != username {
            if j > 0 { assert us[j] == us[1..][j - 1]; }
          }
        }
      }
      r
  }

  class MemStorage {
    var users: JsMap.Entries<User>
    var bookings: JsMap.Entries<Booking>
    var userId: int
    var bookingId: int

    /** Ids are handed out by the counters, so the keys grow in insertion order, stay below the
        counter, and each record is stored under its own id. */
    ghost predicate Valid()
      reads this
    {
      && 1 <= userId && 1 <= bookingId
      && JsMap.KeysIncreasing(users) && JsMap.KeysIncreasing(bookings)
      && (forall i :: 0 <= i < |users| ==> 1 <= users[i].0 < userId && users[i].1.id == users[i].0)
      && (forall i :: 0 <= i < |bookings| ==> 1 <= bookings[i].0 < bookingId && bookings[i].1.id == bookings[i].0)
    }

    /** Both maps empty, both counters at 1, then the bootstrap admin account is created and
        promoted to administrator. */
    constructor ()
      ensures Valid()
      ensures users == [(1, User(1, AdminUsername, AdminPassword, true))] && userId == 2
      ensures bookings == [] && bookingId == 1
    {
      users := [];
      bookings := [];
      userId := 1;
      bookingId := 1;
      new;
      var user := CreateUser(InsertUser(AdminUsername, AdminPassword));
      users := JsMap.Set(users, user.id, user.(isAdmin := true));
    }

    function GetUser(id: int): (r: Option<User>)
      reads this
      ensures r.None? <==> forall i :: 0 <= i < |users| ==> users[i].0 != id
      ensures Valid() && r.Some? ==> r.value.id == id && r.value in JsMap.Values(users)
    {
      JsMap.Get(users, id)
    }

    /** The first user, in creation order, with exactly this username. */
    function GetUserByUsername(username: string): (r: Option<User>)
      reads this
      ensures r.None? <==> forall u :: u in JsMap.Values(users) ==> u.username != username
      ensures r.Some? ==> r.value in JsMap.Values(users) && r.value.username == username
    {
      FindByUsername(JsMap.Values(users), username)
    }

    /** A fresh id from the counter, `isAdmin` false, and no check that the username is free. */
    method CreateUser(input: InsertUser) returns (user: User)
      requires Valid()
      modifies this
      ensures Valid()
      ensures user == NewUser(input, old(userId))
      ensures old(GetUser(user.id)).None?
      ensures users == old(users) + [(user.id, user)] && userId == old(userId) + 1
      ensures bookings == old(bookings) && bookingId == old(bookingId)
    {
      var id := userId;
      userId := userId + 1;
      user := NewUser(input, id);
      users := JsMap.Set(users, id, user);
    }

    /** Every booking, newest first. */
    function GetAllBookings(): (r: seq<Booking>)
      reads this
      ensures multiset(r) == multiset(JsMap.Values(bookings))
      ensures forall i, j :: 0 <= i < j < |r| ==> r[i].createdAt >= r[j].createdAt
    {
      var r := Sorting.Sort(JsMap.Values(bookings), NewestFirst);
      assert forall i, j :: 0 <= i < j < |r| ==> NewestFirst(r[i]) <= NewestFirst(r[j]);
      r
    }

    function GetBookingById(id: int): (r: Option<Booking>)
      reads this
      ensures r.None? <==> forall i :: 0 <= i < |bookings| ==> bookings[i].0 != id
      ensures Valid() && r.Some? ==> r.value.id == id && r.value in JsMap.Values(bookings)
    {
      JsMap.Get(bookings, id)
    }

    /** Exactly the bookings with status `s`, soonest service date first. */
    function GetBookingsByStatus(s: Status, dateKey: string -> int): (r: seq<Booking>)
      reads this
      ensures multiset(r) == multiset(WithStatus(JsMap.Values(bookings), s))
      ensures forall b :: b in r <==> b in JsMap.Values(bookings) && b.status == s
      ensures forall i, j :: 0 <= i < j < |r| ==> dateKey(r[i].serviceDate) <= dateKey(r[j].serviceDate)
    {
      var w := WithStatus(JsMap.Values(bookings), s);
      Seqs.FilterMembers(JsMap.Values(bookings), StatusIs(s));
      var r := Sorting.Sort(w, SoonestFirst(dateKey));
      assert forall i, j :: 0 <= i < j < |r| ==> SoonestFirst(dateKey)(r[i]) <= SoonestFirst(dateKey)(r[j]);
      assert forall b :: b in r <==> b in w by {
        forall b ensures b in r <==> b in w {
          calc {
            b in r;
            b in multiset(r);
            b in multiset(w);
            b in w;
          }
        }
      }
      r
    }

    /** A fresh id from the counter; the client's fields are kept, the status is `pending`. */
    method CreateBooking(input: InsertBooking, now: int) returns (booking: Booking)
      requires Valid()
      modifies this
      ensures Valid()
      ensures booking == NewBooking(input, old(bookingId), now)
      ensures old(GetBookingById(booking.id)).None?
      ensures GetBookingById(booking.id) == Some(booking)
      ensures bookings == old(bookings) + [(booking.id, booking)] && bookingId == old(bookingId) + 1
      ensures users == old(users) && userId == old(userId)
    {
      var id := bookingId;
      bookingId := bookingId + 1;
      booking := NewBooking(input, id, now);
      bookings := JsMap.Set(bookings, id, booking);
      JsMap.GetUnique(bookings, |bookings| - 1);
    }

    /** Replaces the status of one stored booking; an unknown id changes nothing. */
    method UpdateBookingStatus(id: int, s: Status) returns (r: Option<Booking>)
      requires Valid()
      modifies this
      ensures Valid()
      ensures r.None? <==> old(GetBookingById(id)).None?
      ensures r.None? ==> bookings == old(bookings)
      ensures r.Some? ==> r.value == old(GetBookingById(id)).value.(status := s)
      ensures r.Some? ==> bookings == JsMap.Set(old(bookings), id, r.value) && |bookings| == |old(bookings)|
      ensures GetBookingById(id) == r
      ensures forall k :: k != id ==> GetBookingById(k) == old(GetBookingById(k))
      ensures users == old(users) && userId == old(userId) && bookingId == old(bookingId)
    {
      var booking := GetBookingById(id);
      if booking.None? {
        return None;
      }
      var updated := booking.value.(status := s);
      ghost var before := bookings;
      ghost var i := JsMap.IndexOf(before, id).value;
      assert before[i].1 == booking.value && updated.id == id;
      bookings := JsMap.Set(bookings, id, updated);
      assert bookings == before[i := (id, updated)];
      forall k ensures JsMap.Get(bookings, k) == if k == id then Some(updated) else JsMap.Get(before, k) {
        JsMap.GetAfterSet(before, id, updated, k);
      }
      r := Some(updated);
    }

    /** Counts and revenue over the whole store. */
    function GetDashboardStats(dateKey: string -> int): (r: DashboardStats)
      reads this
      ensures r.totalBookings == |bookings|
      ensures r.pendingBookings == |WithStatus(JsMap.Values(bookings), Pending)|
      ensures r.completedBookings == |WithStatus(JsMap.Values(bookings), Completed)|
      ensures r.totalRevenue == Revenue(JsMap.Values(bookings))
    {
      var all := GetAllBookings();
      var pending := GetBookingsByStatus(Pending, dateKey);
      var completed := GetBookingsByStatus(Completed, dateKey);
      RevenuePermutation(all, JsMap.Values(bookings));
      assert |pending| == |multiset(pending)|;
      DashboardStats(|all|, |pending|, |completed|, Revenue(all))
    }
  }

  // ---------------------------------------------------------------------------------------------
  // Properties

  lemma {:induction false} RevenueAppend(a: seq<Booking>, b: seq<Booking>)
    ensures Revenue(a + b) == Revenue(a) + Revenue(b)
  {
    if b != [] {
      RevenueAppend(a, b[..|b| - 1]);
      assert (a + b)[..|a + b| - 1] == a + b[..|b| - 1];
    } else {
      assert a + b == a;
    }
  }

  /** The revenue does not depend on the order of the bookings. */
  lemma {:induction false} RevenuePermutation(a: seq<Booking>, b: seq<Booking>)
    requires multiset(a) == multiset(b)
    ensures Revenue(a) == Revenue(b)
  {
    if a != [] {
      var x := a[|a| - 1];
      var a' := a[..|a| - 1];
      assert a == a' + [x];
      assert x in multiset(b);
      var j :| 0 <= j < |b| && b[j] == x;
      var b' := b[..j] + b[j + 1..];
      assert b == b[..j] + [x] + b[j + 1..];
      assert multiset(a') == multiset(a) - multiset{x};
      assert multiset(b') == multiset(b) - multiset{x};
      RevenuePermutation(a', b');
      RevenueAppend(b[..j] + [x], b[j + 1..]);
      RevenueAppend(b[..j], [x]);
      RevenueAppend(b[..j], b[j + 1..]);
      assert Revenue([x]) == Earned(x) by { assert [x][..0] == []; }
    } else {
      assert b == [];
    }
  }

  /** The sum of the prices, front to back. */
  function PriceSum(bs: seq<Booking>): real {
    if bs == [] then 0.0 else bs[0].price + PriceSum(bs[1..])
  }

  function Earning(b: Booking): bool {
    b.status == Approved || b.status == Completed
  }

  /** The revenue is the total price of the approved and completed bookings; pending and
      cancelled bookings add nothing. */
  lemma {:induction false} RevenueOfEarning(bs: seq<Booking>)
    ensures Revenue(bs) == PriceSum(Seqs.Filter(bs, Earning))
  {
    if bs != [] {
      RevenueOfEarning(bs[1..]);
      assert bs == [bs[0]] + bs[1..];
      RevenueAppend([bs[0]], bs[1..]);
      assert Revenue([bs[0]]) == Earned(bs[0]) by { assert [bs[0]][..0] == []; }
    }
  }

  /** Changing one booking changes the revenue by the difference of what the two versions earn. */
  lemma RevenueReplace(bs: seq<Booking>, i: nat, b: Booking)
    requires i < |bs|
    ensures Revenue(bs[i := b]) == Revenue(bs) - Earned(bs[i]) + Earned(b)
  {
    var front, back := bs[..i], bs[i + 1..];
    assert bs == front + [bs[i]] + back;
    assert bs[i := b] == front + [b] + back;
    RevenueAppend(front + [bs[i]], back);
    RevenueAppend(front + [b], back);
    RevenueAppend(front, [bs[i]]);
    RevenueAppend(front, [b]);
    assert Revenue([b]) == Earned(b) by { assert [b][..0] == []; }
    assert Revenue([bs[i]]) == Earned(bs[i]) by { assert [bs[i]][..0] == []; }
  }

  /** A new booking is pending: it adds one to the total and the pending count and leaves the
      completed count and the revenue as they were. */
  lemma NewBookingStats(bs: seq<Booking>, b: Booking)
    requires b.status == Pending
    ensures Revenue(bs + [b]) == Revenue(bs)
    ensures |WithStatus(bs + [b], Pending)| == |WithStatus(bs, Pending)| + 1
    ensures |WithStatus(bs + [b], Completed)| == |WithStatus(bs, Completed)|
  {
    assert (bs + [b])[..|bs|] == bs;
    Seqs.FilterAppend(bs, [b], StatusIs(Pending));
    Seqs.FilterAppend(bs, [b], StatusIs(Completed));
    assert Seqs.Filter([b], StatusIs(Pending)) == [b] by { assert [b][1..] == []; }
    assert Seqs.Filter([b], StatusIs(Completed)) == [] by { assert [b][1..] == []; }
  }

  /** Users are not checked for duplicate usernames; a later user with a taken username does not
      change what a lookup by that username finds. */
  lemma {:induction false} LookupKeepsFirst(us: seq<User>, u: User, username: string)
    requires FindByUsername(us, username).Some?
    ensures FindByUsername(us + [u], username) == FindByUsername(us, username)
  {
    if us[0].username != username {
      LookupKeepsFirst(us[1..], u, username);
      assert (us + [u])[1..] == us[1..] + [u];
    }
  }

  /** `createUser` does not enforce the table's `unique()` constraint: adding a user whose
      username is taken breaks it. */
  lemma DuplicateUsernameAccepted(us: seq<User>, input: InsertUser, id: int)
    requires exists u :: u in us && u.username == input.username
    ensures !UniqueUsernames(us + [NewUser(input, id)])
  {
    var u :| u in us && u.username == input.username;
    var i :| 0 <= i < |us| && us[i] == u;
    var all := us + [NewUser(input, id)];
    assert all[i] == u && all[|us|] == NewUser(input, id);
  }

  /** Bookings with the same `createdAt` come out of `getAllBookings` in creation order: the map
      lists them by increasing id and the sort is stable. */
  lemma AllBookingsTieBreak(store: MemStorage)
    requires store.Valid()
    ensures Sorting.SortedThenBy(store.GetAllBookings(), NewestFirst, BookingId)
  {
    var values := JsMap.Values(store.bookings);
    assert Sorting.StrictlyIncreasing(values, BookingId);
    Sorting.SortIsStable(values, NewestFirst, BookingId);
  }
}
