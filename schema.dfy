/**
 * The shared record shapes: the `users` and `bookings` tables, the insert shapes the API accepts,
 * and the four-value booking status. Request bodies are JSON values; validating one against an
 * insert shape is `ParseInsertBooking` / `ParseInsertUser`, and what a valid body looks like is
 * stated column by column by `ValidInsertBooking` / `ValidInsertUser`.
 */
module Schema {
  import opened Wrappers

  // ---------------------------------------------------------------------------------------------
  // Booking status

  datatype Status = Pending | Approved | Completed | Cancelled

  function StatusName(s: Status): string {
    match s
    case Pending => "pending"
    case Approved => "approved"
    case Completed => "completed"
    case Cancelled => "cancelled"
  }

  /** `bookingStatusSchema.parse`: exactly the four status names are accepted. */
  function ParseStatus(raw: string): (r: Option<Status>)
    ensures r.Some? ==> StatusName(r.value) == raw
    ensures r.None? <==> forall s: Status :: StatusName(s) != raw
  {
    if raw == "pending" then Some(Pending)
    else if raw == "approved" then Some(Approved)
    else if raw == "completed" then Some(Completed)
    else if raw == "cancelled" then Some(Cancelled)
    else None
  }

  lemma {:induction false} StatusNameRoundTrip(s: Status)
    ensures ParseStatus(StatusName(s)) == Some(s)
  {
    match s
    case Pending =>
    case Approved => assert "approved" != "pending";
    case Completed => assert "completed" != "pending" && "completed" != "approved";
    case Cancelled => assert "cancelled" != "pending" && "cancelled" != "approved" && "cancelled" != "completed";
  }

  // ---------------------------------------------------------------------------------------------
  // JSON request bodies

  datatype Json =
    | JNull
    | JBool(b: bool)
    | JNum(n: real)
    | JStr(s: string)
    | JArray(items: seq<Json>)
    | JObject(fields: map<string, Json>)

  /** Property `k` of an object; `None` is `undefined`. */
  function Property(body: Json, k: string): Option<Json> {
    if body.JObject? && k in body.fields then Some(body.fields[k]) else None
  }

  /** `bookingStatusSchema.parse` applied to an arbitrary JSON value, such as `req.body.status`. */
  function ParseStatusJson(v: Option<Json>): (r: Option<Status>)
    ensures r.Some? <==> v.Some? && v.value.JStr? && ParseStatus(v.value.s).Some?
  {
    if v.Some? && v.value.JStr? then ParseStatus(v.value.s) else None
  }

  // ---------------------------------------------------------------------------------------------
  // Tables

  /** How a column is declared. Text, integer and double columns marked `notNull` are required
      in an insert; the two plain text columns are nullable; the serial id, `status` (which has a
      default) and the creation timestamp are filled in by storage. */
  datatype ColumnKind = Serial | Text | NullableText | Integer | Double | Boolean | Timestamp

  datatype UserColumn = UserId | Username | Password | IsAdmin

  function UserColumnName(c: UserColumn): string {
    match c
    case UserId => "id"
    case Username => "username"
    case Password => "password"
    case IsAdmin => "isAdmin"
  }

  function UserColumnKind(c: UserColumn): ColumnKind {
    match c
    case UserId => Serial
    case Username => Text
    case Password => Text
    case IsAdmin => Boolean
  }

  /** `insertUserSchema` picks `username` and `password`. */
  predicate InUserInsertShape(c: UserColumn) { c == Username || c == Password }

  datatype Column =
    | Id | FirstName | LastName | Email | Phone | Address | City | ZipCode
    | ServiceType | LawnSize | LawnCondition | Obstacles | ServiceDate | ServiceTime
    | StatusColumn | Price | CreatedAt

  function ColumnName(c: Column): string {
    match c
    case Id => "id"
    case FirstName => "firstName"
    case LastName => "lastName"
    case Email => "email"
    case Phone => "phone"
    case Address => "address"
    case City => "city"
    case ZipCode => "zipCode"
    case ServiceType => "serviceType"
    case LawnSize => "lawnSize"
    case LawnCondition => "lawnCondition"
    case Obstacles => "obstacles"
    case ServiceDate => "serviceDate"
    case ServiceTime => "serviceTime"
    case StatusColumn => "status"
    case Price => "price"
    case CreatedAt => "createdAt"
  }

  function ColumnKindOf(c: Column): ColumnKind {
    match c
    case Id => Serial
    case LawnSize => Integer
    case LawnCondition => NullableText
    case Obstacles => NullableText
    case StatusColumn => Text
    case Price => Double
    case CreatedAt => Timestamp
    case _ => Text
  }

  /** `insertBookingSchema` omits `id`, `createdAt` and `status`. */
  predicate InInsertShape(c: Column) { c != Id && c != CreatedAt && c != StatusColumn }

  /** The columns of the insert shape, in declaration order. */
  const InsertColumns: seq<Column> :=
    [FirstName, LastName, Email, Phone, Address, City, ZipCode, ServiceType, LawnSize,
     LawnCondition, Obstacles, ServiceDate, ServiceTime, Price]

  /** A whole number in the 32-bit range, as the insert schema requires of an `integer` column. */
  predicate IsInt32(n: real) {
    n.Floor as real == n && -0x8000_0000 <= n.Floor < 0x8000_0000
  }

  /** Within the bounds the insert schema puts on a `doublePrecision` column: the 48-bit signed
      integer range, -2^47 ..= 2^47 - 1. */
  predicate InDoubleRange(n: real) {
    -0x8000_0000_0000 as real <= n <= 0x7FFF_FFFF_FFFF as real
  }

  /** Whether a column of the given kind accepts the (possibly absent) value. */
  predicate Admits(kind: ColumnKind, v: Option<Json>) {
    match kind
    case Text => v.Some? && v.value.JStr?
    case NullableText => v.None? || v.value.JNull? || v.value.JStr?
    case Integer => v.Some? && v.value.JNum? && IsInt32(v.value.n)
    case Double => v.Some? && v.value.JNum? && InDoubleRange(v.value.n)
    case Boolean => v.Some? && v.value.JBool?
    case Serial => true
    case Timestamp => true
  }

  /** A body `insertBookingSchema` accepts: an object in which every column of the shape admits
      the value supplied for it. Other properties are ignored. */
  predicate ValidInsertBooking(body: Json) {
    body.JObject? && forall c: Column :: InInsertShape(c) ==> Admits(ColumnKindOf(c), Property(body, ColumnName(c)))
  }

  /** A body `insertUserSchema` accepts. */
  predicate ValidInsertUser(body: Json) {
    body.JObject? && forall c: UserColumn :: InUserInsertShape(c) ==> Admits(UserColumnKind(c), Property(body, UserColumnName(c)))
  }

  // ---------------------------------------------------------------------------------------------
  // Records

  datatype User = User(id: int, username: string, password: string, isAdmin: bool)

  datatype InsertUser = InsertUser(username: string, password: string)

  datatype InsertBooking = InsertBooking(
    firstName: string, lastName: string, email: string, phone: string,
    address: string, city: string, zipCode: string,
    serviceType: string, lawnSize: int, lawnCondition: Option<string>, obstacles: Option<string>,
    serviceDate: string, serviceTime: string, price: real)

  /** A stored booking; `createdAt` is the creation time in milliseconds. */
  datatype Booking = Booking(
    id: int,
    firstName: string, lastName: string, email: string, phone: string,
    address: string, city: string, zipCode: string,
    serviceType: string, lawnSize: int, lawnCondition: Option<string>, obstacles: Option<string>,
    serviceDate: string, serviceTime: string, status: Status, price: real, createdAt: int)

  /** `{ ...input, id, status: "pending", createdAt }`: the fields written after the spread win,
      so every client field is kept and the status is always `pending`. */
  function NewBooking(input: InsertBooking, id: int, createdAt: int): (b: Booking)
    ensures InsertPart(b) == input
    ensures b.id == id && b.status == Pending && b.createdAt == createdAt
  {
    Booking(id, input.firstName, input.lastName, input.email, input.phone, input.address,
            input.city, input.zipCode, input.serviceType, input.lawnSize, input.lawnCondition,
            input.obstacles, input.serviceDate, input.serviceTime, Pending, input.price, createdAt)
  }

  /** The client-supplied part of a booking. */
  function InsertPart(b: Booking): InsertBooking {
    InsertBooking(b.firstName, b.lastName, b.email, b.phone, b.address, b.city, b.zipCode,
                  b.serviceType, b.lawnSize, b.lawnCondition, b.obstacles, b.serviceDate,
                  b.serviceTime, b.price)
  }

  /** `{ ...insertUser, id, isAdmin: false }`. */
  function NewUser(input: InsertUser, id: int): (u: User)
    ensures InsertUser(u.username, u.password) == input
    ensures u.id == id && !u.isAdmin
  {
    User(id, input.username, input.password, false)
  }

  /** The table-level `unique()` constraint on `users.username`. */
  predicate UniqueUsernames(us: seq<User>) {
    forall i, j :: 0 <= i < j < |us| ==> us[i].username != us[j].username
  }

  // ---------------------------------------------------------------------------------------------
  // Validation

  function TextOf(body: Json, c: Column): string {
    var v := Property(body, ColumnName(c));
    if v.Some? && v.value.JStr? then v.value.s else ""
  }

  function NullableTextOf(body: Json, c: Column): Option<string> {
    var v := Property(body, ColumnName(c));
    if v.Some? && v.value.JStr? then Some(v.value.s) else None
  }

  function NumberOf(body: Json, c: Column): real {
    var v := Property(body, ColumnName(c));
    if v.Some? && v.value.JNum? then v.value.n else 0.0
  }

  /** The insert read off a body, column by column. */
  function Extract(body: Json): InsertBooking {
    InsertBooking(
      TextOf(body, FirstName), TextOf(body, LastName), TextOf(body, Email), TextOf(body, Phone),
      TextOf(body, Address), TextOf(body, City), TextOf(body, ZipCode), TextOf(body, ServiceType),
      NumberOf(body, LawnSize).Floor, NullableTextOf(body, LawnCondition),
      NullableTextOf(body, Obstacles), TextOf(body, ServiceDate), TextOf(body, ServiceTime),
      NumberOf(body, Price))
  }

  /** `insertBookingSchema.parse(body)`: the insert when the body is valid, otherwise the
      validation error (`None`). */
  function ParseInsertBooking(body: Json): (r: Option<InsertBooking>)
    ensures r.Some? <==> ValidInsertBooking(body)
  {
    if ValidInsertBooking(body) then Some(Extract(body)) else None
  }

  /** `insertUserSchema.parse(body)`. */
  function ParseInsertUser(body: Json): (r: Option<InsertUser>)
    ensures r.Some? <==> ValidInsertUser(body)
    ensures r.Some? ==> JStr(r.value.username) == body.fields["username"]
    ensures r.Some? ==> JStr(r.value.password) == body.fields["password"]
  {
    if ValidInsertUser(body) then
      assert Admits(Text, Property(body, UserColumnName(Username)));
      assert Admits(Text, Property(body, UserColumnName(Password)));
      Some(InsertUser(body.fields["username"].s, body.fields["password"].s))
    else None
  }

  /** The JSON encoding of one column of an insert; an absent optional field is sent as `null`. */
  function Encode(i: InsertBooking, c: Column): Json {
    match c
    case FirstName => JStr(i.firstName)
    case LastName => JStr(i.lastName)
    case Email => JStr(i.email)
    case Phone => JStr(i.phone)
    case Address => JStr(i.address)
    case City => JStr(i.city)
    case ZipCode => JStr(i.zipCode)
    case ServiceType => JStr(i.serviceType)
    case LawnSize => JNum(i.lawnSize as real)
    case LawnCondition => if i.lawnCondition.Some? then JStr(i.lawnCondition.value) else JNull
    case Obstacles => if i.obstacles.Some? then JStr(i.obstacles.value) else JNull
    case ServiceDate => JStr(i.serviceDate)
    case ServiceTime => JStr(i.serviceTime)
    case Price => JNum(i.price)
    case _ => JNull
  }

  /** The properties written for the columns `cs`, one after the other. */
  function EncodeColumns(i: InsertBooking, cs: seq<Column>): map<string, Json> {
    if cs == [] then map[]
    else EncodeColumns(i, cs[..|cs| - 1])[ColumnName(cs[|cs| - 1]) := Encode(i, cs[|cs| - 1])]
  }

  /** The JSON body a client sends for an insert: one property per column of the shape. */
  function ToJson(i: InsertBooking): Json {
    JObject(EncodeColumns(i, InsertColumns))
  }

  // ---------------------------------------------------------------------------------------------
  // Properties of the shapes

  lemma ColumnNameInjective(a: Column, b: Column)
    ensures ColumnName(a) == ColumnName(b) ==> a == b
  {
  }

  /** The booking insert shape: `id`, `status` and `createdAt` cannot be supplied, and `price` is a
      required number, so the price is whatever the client sends. */
  lemma InsertBookingShape(c: Column)
    ensures InInsertShape(c) <==> c in InsertColumns
    ensures InInsertShape(c) ==> ColumnName(c) !in {"id", "status", "createdAt"}
    ensures InInsertShape(Price) && ColumnKindOf(Price) == Double
  {
  }

  /** Only `lawnCondition` and `obstacles` may be missing or null; every other column is `notNull`. */
  lemma NullableBookingColumns(c: Column)
    ensures ColumnKindOf(c) == NullableText <==> c == LawnCondition || c == Obstacles
  {
  }

  /** The user insert shape carries only `username` and `password`; `isAdmin` cannot be supplied. */
  lemma InsertUserShape(c: UserColumn)
    ensures InUserInsertShape(c) <==> UserColumnName(c) in {"username", "password"}
  {
  }

  /** A body without a required column of the booking insert shape is rejected. */
  lemma RequiredColumnMissing(fields: map<string, Json>, c: Column)
    requires InInsertShape(c) && ColumnKindOf(c) != NullableText
    ensures ParseInsertBooking(JObject(fields - {ColumnName(c)})) == None
  {
    assert Property(JObject(fields - {ColumnName(c)}), ColumnName(c)) == None;
  }

  /** A property outside the insert shape (`id`, `status` and `createdAt` among them) is stripped:
      it neither makes a body invalid nor changes what the body parses to. */
  lemma ExtraPropertyIgnored(fields: map<string, Json>, k: string, v: Json)
    requires forall c: Column :: InInsertShape(c) ==> ColumnName(c) != k
    ensures ParseInsertBooking(JObject(fields[k := v])) == ParseInsertBooking(JObject(fields))
  {
    var a, b := JObject(fields[k := v]), JObject(fields);
    forall c: Column | InInsertShape(c) ensures Property(a, ColumnName(c)) == Property(b, ColumnName(c)) {
    }
    SameShapeSameParse(a, b);
  }

  /** Parsing looks only at the properties named by the shape. */
  lemma SameShapeSameParse(a: Json, b: Json)
    requires a.JObject? && b.JObject?
    requires forall c: Column :: InInsertShape(c) ==> Property(a, ColumnName(c)) == Property(b, ColumnName(c))
    ensures ParseInsertBooking(a) == ParseInsertBooking(b)
  {
    assert ValidInsertBooking(a) == ValidInsertBooking(b);
    ExtractAgrees(a, b);
  }

  predicate AgreeOn(a: Json, b: Json, c: Column) {
    Property(a, ColumnName(c)) == Property(b, ColumnName(c))
  }

  lemma ExtractAgrees(a: Json, b: Json)
    requires AgreeOn(a, b, FirstName) && AgreeOn(a, b, LastName) && AgreeOn(a, b, Email)
    requires AgreeOn(a, b, Phone) && AgreeOn(a, b, Address) && AgreeOn(a, b, City)
    requires AgreeOn(a, b, ZipCode) && AgreeOn(a, b, ServiceType) && AgreeOn(a, b, LawnSize)
    requires AgreeOn(a, b, LawnCondition) && AgreeOn(a, b, Obstacles) && AgreeOn(a, b, ServiceDate)
    requires AgreeOn(a, b, ServiceTime) && AgreeOn(a, b, Price)
    ensures Extract(a) == Extract(b)
  {
  }

  /** Validation keeps every supplied field of the shape unchanged: encoding the parsed insert
      gives back the property the body supplied for each column. */
  lemma ParseKeepsSuppliedFields(body: Json, c: Column)
    requires ParseInsertBooking(body).Some?
    requires InInsertShape(c) && Property(body, ColumnName(c)).Some?
    ensures Property(ToJson(ParseInsertBooking(body).value), ColumnName(c)) == Property(body, ColumnName(c))
  {
    assert Admits(ColumnKindOf(c), Property(body, ColumnName(c)));
    EncodedProperty(Extract(body), c);
    EncodeExtract(body, c);
  }

  lemma EncodeExtract(body: Json, c: Column)
    requires InInsertShape(c) && Admits(ColumnKindOf(c), Property(body, ColumnName(c)))
    requires Property(body, ColumnName(c)).Some?
    ensures Some(Encode(Extract(body), c)) == Property(body, ColumnName(c))
  {
    match c
    case LawnSize =>
      var n := Property(body, ColumnName(c)).value.n;
      assert n.Floor as real == n;
    case _ =>
  }

  lemma EncodedProperty(i: InsertBooking, c: Column)
    requires InInsertShape(c)
    ensures Property(ToJson(i), ColumnName(c)) == Some(Encode(i, c))
  {
    assert c in InsertColumns;
    EncodedColumn(i, InsertColumns, c);
  }

  lemma {:induction false} EncodedColumn(i: InsertBooking, cs: seq<Column>, c: Column)
    requires c in cs
    ensures ColumnName(c) in EncodeColumns(i, cs) && EncodeColumns(i, cs)[ColumnName(c)] == Encode(i, c)
  {
    var last := cs[|cs| - 1];
    if last != c {
      ColumnNameInjective(last, c);
      assert c in cs[..|cs| - 1] by { assert cs == cs[..|cs| - 1] + [last]; }
      EncodedColumn(i, cs[..|cs| - 1], c);
    }
  }

  /** The two numeric columns are within the schema's bounds. */
  predicate Encodable(i: InsertBooking) {
    IsInt32(i.lawnSize as real) && InDoubleRange(i.price)
  }

  /** Every insert whose numbers fit their columns survives encoding and validation. */
  lemma ParseToJson(i: InsertBooking)
    requires Encodable(i)
    ensures ParseInsertBooking(ToJson(i)) == Some(i)
  {
    forall c: Column | InInsertShape(c) ensures Admits(ColumnKindOf(c), Property(ToJson(i), ColumnName(c))) {
      EncodedProperty(i, c);
      EncodeAdmitted(i, c);
    }
    ExtractToJson(i);
  }

  /** The server accepts a client's encoded insert exactly when its lawn size fits in 32 bits and
      its price within the double column's bounds. */
  lemma ToJsonAccepted(i: InsertBooking)
    ensures ParseInsertBooking(ToJson(i)).Some? <==> IsInt32(i.lawnSize as real) && InDoubleRange(i.price)
  {
    if Encodable(i) {
      ParseToJson(i);
    } else if !IsInt32(i.lawnSize as real) {
      assert InInsertShape(LawnSize);
      EncodedProperty(i, LawnSize);
      assert !Admits(ColumnKindOf(LawnSize), Property(ToJson(i), ColumnName(LawnSize)));
    } else {
      assert InInsertShape(Price);
      EncodedProperty(i, Price);
      assert !Admits(ColumnKindOf(Price), Property(ToJson(i), ColumnName(Price)));
    }
  }

  lemma ExtractToJson(i: InsertBooking)
    ensures Extract(ToJson(i)) == i
  {
    var body := ToJson(i);
    EncodedProperty(i, FirstName);
    EncodedProperty(i, LastName);
    EncodedProperty(i, Email);
    EncodedProperty(i, Phone);
    EncodedProperty(i, Address);
    EncodedProperty(i, City);
    EncodedProperty(i, ZipCode);
    EncodedProperty(i, ServiceType);
    EncodedProperty(i, LawnSize);
    EncodedProperty(i, LawnCondition);
    EncodedProperty(i, Obstacles);
    EncodedProperty(i, ServiceDate);
    EncodedProperty(i, ServiceTime);
    EncodedProperty(i, Price);
    ContactEncoded(body, i);
    ServiceEncoded(body, i);
    ExtractFields(body, i);
  }

  predicate Holds(body: Json, i: InsertBooking, c: Column) {
    Property(body, ColumnName(c)) == Some(Encode(i, c))
  }

  lemma ContactEncoded(body: Json, i: InsertBooking)
    requires Holds(body, i, FirstName) && Holds(body, i, LastName) && Holds(body, i, Email)
    requires Holds(body, i, Phone) && Holds(body, i, Address) && Holds(body, i, City)
    requires Holds(body, i, ZipCode)
    ensures TextOf(body, FirstName) == i.firstName && TextOf(body, LastName) == i.lastName
    ensures TextOf(body, Email) == i.email && TextOf(body, Phone) == i.phone
    ensures TextOf(body, Address) == i.address && TextOf(body, City) == i.city
    ensures TextOf(body, ZipCode) == i.zipCode
  {
  }

  lemma ServiceEncoded(body: Json, i: InsertBooking)
    requires Holds(body, i, ServiceType) && Holds(body, i, LawnSize)
    requires Holds(body, i, LawnCondition) && Holds(body, i, Obstacles) && Holds(body, i, ServiceDate)
    requires Holds(body, i, ServiceTime) && Holds(body, i, Price)
    ensures TextOf(body, ServiceType) == i.serviceType && NumberOf(body, LawnSize).Floor == i.lawnSize
    ensures NullableTextOf(body, LawnCondition) == i.lawnCondition
    ensures NullableTextOf(body, Obstacles) == i.obstacles
    ensures TextOf(body, ServiceDate) == i.serviceDate && TextOf(body, ServiceTime) == i.serviceTime
    ensures NumberOf(body, Price) == i.price
  {
    assert (i.lawnSize as real).Floor == i.lawnSize;
  }

  lemma ExtractFields(body: Json, i: InsertBooking)
    requires TextOf(body, FirstName) == i.firstName && TextOf(body, LastName) == i.lastName
    requires TextOf(body, Email) == i.email && TextOf(body, Phone) == i.phone
    requires TextOf(body, Address) == i.address && TextOf(body, City) == i.city
    requires TextOf(body, ZipCode) == i.zipCode && TextOf(body, ServiceType) == i.serviceType
    requires NumberOf(body, LawnSize).Floor == i.lawnSize
    requires NullableTextOf(body, LawnCondition) == i.lawnCondition
    requires NullableTextOf(body, Obstacles) == i.obstacles
    requires TextOf(body, ServiceDate) == i.serviceDate && TextOf(body, ServiceTime) == i.serviceTime
    requires NumberOf(body, Price) == i.price
    ensures Extract(body) == i
  {
  }

  /** The encoding of each column is admitted by that column's kind. */
  lemma EncodeAdmitted(i: InsertBooking, c: Column)
    requires InInsertShape(c) && (c == LawnSize ==> IsInt32(i.lawnSize as real))
    requires c == Price ==> InDoubleRange(i.price)
    ensures Admits(ColumnKindOf(c), Some(Encode(i, c)))
  {
  }
}
