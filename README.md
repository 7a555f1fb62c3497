# Lawn-booking service: a Dafny model

This project models the core of a lawn-mowing booking web application. Customers book a mowing service through a four-step wizard. An Express server validates the booking against a drizzle/zod schema and keeps it in an in-memory store. Administrators list, filter and search the bookings, move them between the four statuses `pending`, `approved`, `completed` and `cancelled`, and read dashboard totals.

The model is split into one module per core source file, plus a few helper modules.

| module | models |
|---|---|
| `Schema` | The `users` and `bookings` tables; `insertBookingSchema`, `insertUserSchema` and `bookingStatusSchema` as validators over a JSON value; the client's JSON encoding of an insert. |
| `Storage` | `MemStorage` as a class. Its two JavaScript `Map`s are insertion-ordered entry sequences (`JsMap`), and its two counters are fields the methods update in place. |
| `Routes` | The six HTTP handlers, as functions (reads) and methods (writes) returning a status code and a reply. |
| `Labels` | The slot and service labels and the zero-padded booking id that several pages share. |
| `BookingTable` | The admin table: tab and search filtering, the per-status action buttons, the PATCH request and the "View Details" link. |
| `BookingForm` | The wizard: the services and slots tables, the default values, the lawn-size input, the step buttons and the submitted payload. It includes the class `BookingWizard`, whose `step` and form values the handlers update in place. |
| `BookingDetail` | The admin detail page: the id read from the URL, whether the query runs, the view precedence, and the lawn texts. |
| `BookingConfirmation` | The page after booking: the view precedence and the summary lines. |
| `StatusBadge` | The badge colours, kept as two locals set by a `switch`, and the capitalised label. |
| `TestimonialCard` | `renderStars`, as a loop over the full stars followed by an optional half star. |
| `JsText` | The JavaScript text built-ins the core relies on. `parseInt` follows section 19.2.5 of ECMA-262 (leading white space, sign, `0x` prefix, longest digit prefix, NaN as `None`). Also `toString`, `padStart`, ASCII `toLowerCase`/`toUpperCase` and `includes`. |
| `JsMap`, `Seqs`, `Sorting` | An insertion-ordered `Map`, `Array.prototype.filter`, and the stable `Array.prototype.sort` with a comparator that subtracts two integer keys. |

Behaviour a reader might expect but the code does not have:

- The server stores whatever `price` the client sends. Nothing derives it from the service type.
- `PATCH /api/admin/bookings/:id/status` accepts every status change, including `completed` back to `pending`.
- `createUser` does not check that the username is new, although the column is declared `unique()`. `Storage.DuplicateUsernameAccepted` states the consequence.
- The insert schema accepts empty strings.
- The admin routes registered here check no session. Whatever `setupAuth` installs is outside the model.

## Model

| member | source | states |
|---|---|---|
| `Schema.ParseStatus` | shared/schema.ts:43-48 | Exactly the four status names parse. Any other text is rejected. A parsed status prints back as the text it came from. |
| `Schema.StatusNameRoundTrip` | shared/schema.ts:43-48 | Every status parses back from its own name. |
| `Schema.ParseStatusJson` | server/routes.ts:86-93 | A `status` property is accepted iff it is present, is a string, and is one of the four names. |
| `Schema.NewBooking` | server/storage.ts:96-102 | A new booking carries exactly the supplied insert fields, plus the given id, status `pending` and the creation time. |
| `Schema.NewUser` | server/storage.ts:69-70 | A new user carries the supplied username and password, plus the given id, and is not an administrator. |
| `Schema.ParseInsertBooking` | shared/schema.ts:37-41 | A body is accepted iff it is an object and every insert column admits its property: a 32-bit integer lawn size, and a price within the 48-bit bounds of a `doublePrecision` column. |
| `Schema.ParseInsertUser` | shared/schema.ts:32-35 | A user body is accepted iff `username` and `password` are strings; those two strings are the result. |
| `Schema.ColumnNameInjective` | shared/schema.ts:12-30 | Distinct booking columns have distinct property names. |
| `Schema.InsertBookingShape` | shared/schema.ts:37-41 | The insert shape is every column except `id`, `status` and `createdAt`; `price` is in it as a double. |
| `Schema.NullableBookingColumns` | shared/schema.ts:23-24 | Only `lawnCondition` and `obstacles` may be null or absent. |
| `Schema.InsertUserShape` | shared/schema.ts:32-35 | The user insert shape is exactly `username` and `password`. |
| `Schema.RequiredColumnMissing` | shared/schema.ts:14-28 | Removing any not-null insert column makes the body invalid. |
| `Schema.ExtraPropertyIgnored` | shared/schema.ts:37-41 | A property outside the shape changes neither validity nor the result; unknown keys are stripped. |
| `Schema.SameShapeSameParse` | shared/schema.ts:37-41 | Two objects that agree on the shape's properties parse to the same result. |
| `Schema.ParseKeepsSuppliedFields` | shared/schema.ts:37-41 | Every property a valid body supplied is re-encoded unchanged from the parsed insert. |
| `Schema.ParseToJson` | shared/schema.ts:37-41 | Decoding the client's encoding of an insert whose lawn size fits 32 bits and whose price is within the 48-bit bounds gives back that insert. |
| `Schema.ToJsonAccepted` | shared/schema.ts:22-28 | An encoded insert is accepted iff its lawn size is a 32-bit integer and its price lies between -140737488355328 and 140737488355327. |
| `Storage.FindByUsername` | server/storage.ts:63-65 | `find` yields nothing iff no user has the name; otherwise it yields the first user in insertion order with that name. |
| `Storage.MemStorage.constructor` | server/storage.ts:37-56 | The store starts with only the admin account, id 1 and promoted to administrator; the user counter is 2; there are no bookings and the booking counter is 1. |
| `Storage.MemStorage.GetUser` | server/storage.ts:58-60 | Nothing iff no entry has the id; otherwise the stored user with that id. |
| `Storage.MemStorage.GetUserByUsername` | server/storage.ts:62-66 | Nothing iff no stored user has the name; otherwise a stored user with that name. |
| `Storage.MemStorage.CreateUser` | server/storage.ts:68-73 | The user takes the counter's id, which was unused. The user is appended and the counter advances. Bookings are unchanged. |
| `Storage.MemStorage.GetAllBookings` | server/storage.ts:75-80 | Result: a permutation of the stored bookings, newest `createdAt` first. |
| `Storage.AllBookingsTieBreak` | server/storage.ts:75-80 | Bookings with equal creation times stay in increasing id order, because the sort is stable over insertion order. |
| `Storage.MemStorage.GetBookingById` | server/storage.ts:82-84 | Nothing iff no entry has the id; otherwise the stored booking with that id. |
| `Storage.MemStorage.GetBookingsByStatus` | server/storage.ts:86-93 | Result: exactly the stored bookings with the status, as a permutation of the filtered values, soonest service date first. |
| `Storage.MemStorage.CreateBooking` | server/storage.ts:95-106 | The booking is `pending` and takes the counter's id, which was unused. It is appended and can be read back by that id. The counter advances. Users are unchanged. |
| `Storage.MemStorage.UpdateBookingStatus` | server/storage.ts:108-119 | Unknown id: no result and no change. Known id: the booking with only its status replaced, stored in place at the same position. Every other id reads as before, and users and counters are unchanged. |
| `Storage.MemStorage.GetDashboardStats` | server/storage.ts:121-144 | The total counts all entries. Pending and completed counts are the sizes of those status filters. Revenue is the sum of approved and completed prices. |
| `Storage.RevenuePermutation` | server/storage.ts:127-136 | Revenue does not depend on the order of the bookings, so it can be summed over the sorted list. |
| `Storage.RevenueAppend` | server/storage.ts:131-136 | Revenue of a concatenation is the sum of the revenues. |
| `Storage.RevenueOfEarning` | server/storage.ts:131-136 | The `reduce` equals the sum of prices over the bookings whose status is approved or completed. |
| `Storage.RevenueReplace` | server/storage.ts:108-119 | Replacing one booking changes revenue by the difference of the two earnings. |
| `Storage.NewBookingStats` | server/storage.ts:95-106 | A new pending booking leaves revenue and the completed count unchanged and raises the pending count by one. |
| `Storage.LookupKeepsFirst` | server/storage.ts:62-66 | Once a username is taken, adding more users never changes which user `getUserByUsername` finds. |
| `Storage.DuplicateUsernameAccepted` | server/storage.ts:68-73 | Creating a user with a name already present breaks name uniqueness; the store does not prevent it. |
| `Routes.PostBooking` | server/routes.ts:15-26 | Invalid body: 400 and nothing stored. Valid body: 201 with the new pending booking, which is appended and can then be fetched with 200. Users are unchanged either way. |
| `Routes.GetBooking` | server/routes.ts:29-45 | 400 iff the id does not parse. 404 iff it parses and no booking has it. 200 iff a booking is returned, and it is the stored one. No other code occurs. |
| `Routes.IdParamLeadingDigits` | server/routes.ts:31 | An id parameter answers exactly as its leading digit run does, since `parseInt` ignores trailing text. |
| `Routes.GetAdminBookings` | server/routes.ts:50-57 | 200 with a permutation of all stored bookings, newest first. |
| `Routes.GetBookingsByStatusRoute` | server/routes.ts:60-76 | 400 iff the parameter is no status name. Otherwise 200 with the stored bookings of that status, each as often as it is stored (equal as multisets), soonest first. |
| `Routes.PatchStatus` | server/routes.ts:79-104 | An unparsable id gives 400, then an invalid status 400, then an unknown id 404, in that order. Any failure leaves the bookings unchanged. Success gives 200 with the updated booking, stored in place and fetchable. |
| `Routes.GetDashboardStatsRoute` | server/routes.ts:107-114 | 200 with the entry count, the number of pending and of completed bookings, and revenue equal to the price sum of the approved and completed bookings. |
| `Labels.TimeLabel` | client/src/components/ui/booking-table.tsx:62-73 | Each of the three slots maps to its label; any other text passes through. |
| `Labels.TimeLabelChanges` | client/src/components/ui/booking-table.tsx:62-73 | The label differs from its input iff the input is one of the three slot values. |
| `Labels.ServiceTypeLabel` | client/src/components/ui/booking-table.tsx:75-86 | Each of the three service ids maps to its title; any other text passes through. |
| `Labels.ServiceTypeLabelChanges` | client/src/components/ui/booking-table.tsx:75-86 | The label differs from its input iff the input is one of the three service ids. |
| `Labels.PadId` | client/src/components/ui/booking-table.tsx:181 | The id's decimal text, preceded by just enough `0` characters to make 4 characters (none when it has 4 or more). It parses back to a non-negative id. |
| `JsText.ParseIntNatToString` | server/routes.ts:31 | `parseInt` of a number's decimal text gives that number back. |
| `JsText.ParseIntPadded` | client/src/pages/booking-confirmation.tsx:88 | Leading zeros do not change the parsed value. |
| `JsText.ParseIntDecimalRun` | server/routes.ts:31 | Digits followed by a non-digit parse to the digits' value. |
| `JsText.ParseIntHexRun` | server/routes.ts:31 | `0x` or `0X` followed by hexadecimal digits parses as hexadecimal. |
| `JsText.ParseIntNoDigit` | server/routes.ts:31-34 | Text that starts with no sign, space or digit, and the empty text, give NaN. |
| `BookingTable.FilteredBookings` | client/src/components/ui/booking-table.tsx:88-102 | Nothing before the fetch. After it, a subsequence of the fetched list holding exactly the bookings that pass the tab and the search. |
| `BookingTable.EmptyTermKeepsTab` | client/src/components/ui/booking-table.tsx:92 | An empty search term filters by the tab alone. |
| `BookingTable.AllTabShowsEverything` | client/src/components/ui/booking-table.tsx:88-102 | The "All" tab with no search shows the fetched list unchanged. |
| `BookingTable.SearchIgnoresTermCase` | client/src/components/ui/booking-table.tsx:93-99 | Lower-casing the search term does not change which bookings match. |
| `BookingTable.OfferedTransitions` | client/src/components/ui/booking-table.tsx:203-275 | The statuses offered are exactly the targets of the row's buttons. |
| `BookingTable.OfferedTransitionsShape` | client/src/components/ui/booking-table.tsx:203-275 | No button targets the current status. A completed row offers none, and a cancelled row offers only `pending`. |
| `BookingTable.StatusRequestParses` | client/src/components/ui/booking-table.tsx:38 | The PATCH request's id parameter parses to the row's id, and its body's status parses to the target. |
| `BookingDetail.FirstMatch` | client/src/pages/admin/booking-detail.tsx:18 | Result: the leftmost position at which the pattern matches, or none when it matches nowhere. |
| `BookingDetail.ExtractBookingId` | client/src/pages/admin/booking-detail.tsx:16-22 | No id iff the pattern matches nowhere. Otherwise the value of the digit run after the leftmost match. |
| `BookingDetail.DetailPathRoundTrip` | client/src/components/ui/booking-table.tsx:198 | The "View Details" link's path gives back the row's id. |
| `BookingDetail.DetailPathFetches` | client/src/pages/admin/booking-detail.tsx:24-28 | The linked page fetches iff the id is not 0. |
| `BookingDetail.DetailFetchFindsStored` | client/src/pages/admin/booking-detail.tsx:25 | The fetch answers 200 iff the store holds the id. |
| `BookingDetail.FetchOutcome` | client/src/pages/admin/booking-detail.tsx:24-28 | A query has an error iff the answer is not a 2xx booking reply; otherwise its data is that booking. |
| `BookingDetail.View` | client/src/pages/admin/booking-detail.tsx:63-88 | Loading shows the spinner. Otherwise an error or missing data shows "Booking Not Found", and only data without an error shows the details. |
| `BookingDetail.DetailPageShowsStored` | client/src/pages/admin/booking-detail.tsx:24-88 | A linked, nonzero id shows the stored booking, or "Booking Not Found" when there is none. |
| `BookingDetail.PaddedIdFetchesSame` | client/src/pages/admin/booking-detail.tsx:97 | Fetching by the padded id that the page displays answers as fetching by the plain id. |
| `BookingDetail.LawnSizeLabel` | client/src/pages/admin/booking-detail.tsx:56-61 | Each of the four labels is chosen iff the size is in its range: below 1000, below 5000, below 10000, or 10000 and above. |
| `BookingDetail.LawnConditionText` | client/src/pages/admin/booking-detail.tsx:174 | A null or empty condition shows "Not specified"; any other text shows itself. |
| `BookingDetail.Heading` | client/src/pages/admin/booking-detail.tsx:97 | The heading is `Booking #` followed by the padded id, and the rest parses back to a non-negative id. |
| `BookingDetail.ObstaclesSection` | client/src/pages/admin/booking-detail.tsx:185-192 | The obstacles section appears iff the obstacles are a non-empty text, and then shows that text. |
| `BookingDetail.UntouchedObstaclesHidden` | client/src/pages/admin/booking-detail.tsx:185 | The form's initial empty obstacles text gives no obstacles section. |
| `BookingForm.FindService` | client/src/components/ui/booking-form.tsx:124 | Nothing iff no service has the id; otherwise a listed service with that id. |
| `BookingForm.ServiceIdsDistinct` | client/src/components/ui/booking-form.tsx:31-50 | The three service ids are distinct. |
| `BookingForm.ServiceTitlesAreLabels` | client/src/components/ui/booking-form.tsx:31-50 | Each service title equals the admin label for its id. |
| `BookingForm.TimeSlotLabelsAreLabels` | client/src/components/ui/booking-form.tsx:58-62 | Each slot label equals the admin label for its value. |
| `BookingForm.DefaultValues` | client/src/components/ui/booking-form.tsx:83-99 | The defaults' price matches their service, the terms start unaccepted, and the date is today. |
| `BookingForm.LawnSizeInput` | client/src/components/ui/booking-form.tsx:208 | NaN becomes 0; otherwise the result is the parsed integer. |
| `BookingForm.LawnSizeOfNumber` | client/src/components/ui/booking-form.tsx:208 | Typing a number's digits sets exactly that number. |
| `BookingForm.LawnSizeIgnoresTrailingText` | client/src/components/ui/booking-form.tsx:208 | Digits followed by other text set the digits' value. |
| `BookingForm.LawnSizeOfNonNumber` | client/src/components/ui/booking-form.tsx:208 | A cleared field, or text starting with a letter, sets 0. |
| `BookingForm.SubmitPayload` | client/src/components/ui/booking-form.tsx:65-69 | A payload exists iff the terms are accepted, the lawn size is a 32-bit integer and the price is within the 48-bit bounds; it is the insert fields without `termsAccepted`. |
| `BookingForm.WizardPricesInRange` | client/src/components/ui/booking-form.tsx:31-50 | With a listed service's price, the form submits iff the terms are accepted and the lawn size is a 32-bit integer. |
| `BookingForm.SubmittedPayloadAccepted` | client/src/components/ui/booking-form.tsx:131-135 | With the terms accepted, the form submits exactly what the server accepts, and the server decodes it to the same insert. |
| `BookingForm.Buttons` | client/src/components/ui/booking-form.tsx:183-187 | Next is offered on steps 1-3, Back on steps 2-4, and Submit only on step 4. |
| `BookingForm.ButtonsKeepStepInRange` | client/src/components/ui/booking-form.tsx:137-143 | Pressing any offered button keeps the step within 1..4, and every step offers a way forward. |
| `BookingForm.BookingWizard.constructor` | client/src/components/ui/booking-form.tsx:77-100 | The wizard starts at step 1 with the default values. |
| `BookingForm.BookingWizard.HandleServiceChange` | client/src/components/ui/booking-form.tsx:123-129 | An unknown id changes nothing. A known id sets the service type and its price, and keeps price and service in agreement. |
| `BookingForm.BookingWizard.EnterLawnSize` | client/src/components/ui/booking-form.tsx:208 | Only the lawn size changes, to the parsed input. |
| `BookingForm.BookingWizard.SetTermsAccepted` | client/src/components/ui/booking-form.tsx:477-483 | Only the terms flag changes. |
| `BookingForm.BookingWizard.Press` | client/src/components/ui/booking-form.tsx:137-143 | Next and Back move one step and keep the values. Submit, on step 4, yields the payload. |
| `BookingConfirmation.SummaryOf` | client/src/pages/booking-confirmation.tsx:87-105 | The id line is `#` followed by the padded id, which parses back to a non-negative id. |
| `BookingConfirmation.SummaryUsesFormTitles` | client/src/pages/booking-confirmation.tsx:91-97 | A booking made through the form shows the service title and slot label that the form displayed. |
| `BookingConfirmation.View` | client/src/pages/booking-confirmation.tsx:52-117 | The spinner, then the not-found card on error, then the summary; with neither data nor an error, nothing. |
| `BookingConfirmation.ConfirmsStoredBooking` | client/src/pages/booking-confirmation.tsx:13-18 | The confirmation URL for an id shows the stored booking's summary, or the not-found card when there is none. |
| `BookingConfirmation.EmptyAnswerDiffers` | client/src/pages/booking-confirmation.tsx:117 | With no data and no error, the detail page says "Booking Not Found" while this page shows nothing. |
| `StatusBadge.BadgeColours` | client/src/components/ui/status-badge.tsx:8-28 | Each status name gets its colour pair; any other text keeps both colours empty. |
| `StatusBadge.ColoursDistinguishStatuses` | client/src/components/ui/status-badge.tsx:11-28 | The four colour pairs are distinct and non-empty. |
| `StatusBadge.BadgeLabel` | client/src/components/ui/status-badge.tsx:32 | The label is the name with its first letter upper-cased and the rest unchanged. |
| `StatusBadge.BadgeLabelLowersToName` | client/src/components/ui/status-badge.tsx:32 | Lower-casing the label gives the status name back. |
| `StatusBadge.BadgeLabelsDistinct` | client/src/components/ui/status-badge.tsx:32 | Distinct statuses have distinct labels. |
| `TestimonialCard.RemOneIsFraction` | client/src/components/ui/testimonial-card.tsx:16 | `rating % 1 !== 0` holds iff the rating is not a whole number. |
| `TestimonialCard.FullCount` | client/src/components/ui/testimonial-card.tsx:15-20 | For a non-negative rating, the loop count is its floor. |
| `TestimonialCard.FullStars` | client/src/components/ui/testimonial-card.tsx:18-20 | `n` full stars, with keys 0 to n - 1 in order. |
| `TestimonialCard.RenderStars` | client/src/components/ui/testimonial-card.tsx:13-27 | The loop builds the full stars, followed by a half star exactly for a fractional rating. |
| `TestimonialCard.HalfStarIsLast` | client/src/components/ui/testimonial-card.tsx:22-24 | A star is the half star iff the rating is fractional and the star is the last one. |
| `TestimonialCard.AtMostFiveStars` | client/src/components/ui/testimonial-card.tsx:13-27 | A rating from 0 to 5 shows at most five stars. |
| `TestimonialCard.WholeAndHalfRatings` | client/src/components/ui/testimonial-card.tsx:13-27 | A whole rating `n` shows `n` full stars; `n + 0.5` adds one half star. |
| `TestimonialCard.StarKeysDistinct` | client/src/components/ui/testimonial-card.tsx:19-23 | No two stars in a row are equal, so no two share a key. |

## Left out

- Express, HTTP parsing, JSON serialisation and the `async`/`Promise` plumbing are left out. Every handler runs to completion on the store it is given.
- The constructor's `.then` promotes the admin account after `createUser` resolves. The model treats it as done before the store is used.
- The 500 responses are left out. `MemStorage` never throws, so in the model no handler reaches them.
- Zod's `errors` detail array in a 400 reply is left out; the reply carries only the message.
- Sessions and authentication are left out, including `sessionStore`, `setupAuth` and the `users` routes. server/auth.ts is not part of this model.
- `Storage.MemStorage.GetBookingsByStatus`, `Routes.GetBookingsByStatusRoute` and `Storage.MemStorage.GetAllBookings` take dates as integers. `new Date(...)`, the clock and `Date` parsing of `serviceDate` become the parameters `now` and `dateKey`. An unparsable date (`NaN` from the comparator) is not modelled.
- `Storage.MemStorage.GetDashboardStats` sums prices as exact reals. IEEE double rounding of the running sum is not modelled.
- `toFixed(2)` currency text and `date-fns` formatting are left out, and so are the date and total lines of the summaries.
- `Schema.ParseInsertBooking` assumes that drizzle-zod maps an `integer` column to a 32-bit integer check and a `doublePrecision` column to the bounds -140737488355328 to 140737488355327, as drizzle-zod 0.7 does. The library version is not pinned in the modelled files.
- `Schema.ParseInsertBooking` treats an absent nullable property (`lawnCondition`, `obstacles`) as null. Zod leaves the key absent instead. The stored record and the JSON replies differ only in that key, and every page shows absent and null alike.
- A JavaScript number that is not finite is left out. `parseInt` of a digit string too long for a double gives `Infinity`, which finds no booking; the model yields a large integer, which finds none either, so the reply is the same 404.
- `JsText.ToLower` and `JsText.UpperChar` map ASCII letters only. Unicode case mapping is not modelled.
- `BookingForm.BookingWizard.Press` does not model the Submit button's `disabled={isPending}` state, or the redirect to the confirmation page after a successful post. The redirect's target is covered by `BookingConfirmation.ConfirmsStoredBooking`.
- The wizard's plain text inputs (name, contact, address, obstacles) are not modelled as separate handlers: each is a direct field write. Nor are the calendar's past-date check, the `lawnConditions` options or the select widgets.
- `TestimonialCard.RenderStars` takes the rating as an exact real. `NaN` and infinite ratings are left out; for those the source would loop forever or show a lone half star.
- The JSX markup, styling, icons, toasts and query-cache invalidation are left out.
- client/src/lib/queryClient.ts is not part of this model. `BookingDetail.FetchOutcome` assumes its query function treats every non-2xx answer as an error.
