# HMCC Ramadan iftar sponsorship calendar — Dafny model

HMCC_Calendar is a booking service for the Heathrow Muslim Community Center's
Ramadan 2026 iftar calendar. It has one row per calendar date, 18 February to
20 March 2026. Sponsors ask for an open date. The request is held as
pending approval until an administrator approves or rejects it. Administrators
can also edit a booking, record payments, cancel a booking, and block or
unblock a date. Every change is written to an audit log. The REST layer
serves a public listing, a detail that depends on the caller, and CSV
exports.

This project models the core of that service in Dafny:

- `common.dfy` (`Common`): optional values, the update-patch type, JavaScript truthiness, substring search, the lexicographic order SQLite uses for TEXT dates, and number-to-text conversion.
- `schema.dfy` (`Schema`): the enumerated columns of the `bookings` table, with the values the service and its request validators write and the text each value is stored as. It also covers SQL's three-valued `IN`, which decides what the CHECK constraints admit.
- `config.dfy` (`Config`): the pricing and guest settings, with the default configuration.
- `ramadan_dates.dfy` (`RamadanDates`): the 31-entry calendar table, the last ten nights, the special nights, `getPricing` and `getExpectedGuests`.
- `records.dfy` (`Records`): a `bookings` row, the request bodies, audit entries, the service's error messages, and look-ups by date and id under the two UNIQUE keys.
- `admin_update.dfy` (`AdminUpdates`): adminUpdateBooking's SET list, built from the 17 allowed fields plus the derived total and balance, and its effect on the row.
- `booking_service.dfy` (`BookingService`): each state transition as a function on a row. The class `CalendarStore` holds the `bookings` and `audit_log` tables as sequences. Its methods are the service operations, each proved against those functions. Each returns the enriched view of the row, as getBookingById and getBookingByDate give it. Each keeps the store invariant: the id and date keys are unique, every audit entry is attributed and names an existing row, and the log is in time order.
- `like.dfy` (`SqlLike`): SQLite's `LIKE` as searchBookings uses it.
- `queries.dfy` (`Queries`): the read-only queries. These are ORDER BY date, the enrichment of a row, the listing, pending approvals, search, export, statistics and the audit log.
- `init.dfy` (`Init`): database initialisation. This covers the idempotent seed (`INSERT OR IGNORE`), the Hijri repair, and the optional fresh start.
- `csv.dfy` (`CsvExport`): the CSV export, with a reader for its format that reads the document back.
- `routes.dfy` (`Routes`): the public listing, the detail of one booking (redacted unless the caller is an admin), and the status given to a failed booking request.

Some inputs are parameters: the uuid of each new row, the value of `datetime('now')`, and whether the caller is an authenticated admin. A database operation is one atomic method on `CalendarStore`.

Where the code and its documentation disagree, the model follows the code:

- createBooking accepts a date whose status is `eid`. It refuses only blocked, HMCC-sponsored, booked and pending dates.
- adminUpdateBooking computes the new balance from the total stored before the update, not from the new total.
- Unblocking a date keeps whatever sponsor data the row held.
- rejectBooking does not check the approval status: any existing row can be rejected, including one already rejected or approved.
- Rejecting keeps `approved_by` and `approved_at` from an earlier approval.
- createBooking sets the total to 1500 but leaves `balance` as it was (0 on a seeded row).
- The header comment of `src/database/ramadanDates.js` places the blocked dates on 19–21 February and HMCC's own date on 22 February. The table itself blocks 18–20 February and gives 21 February to HMCC. The model uses the table.
- The same header comment gives a guest capacity of 150 on weekdays and 200 at weekends. The configuration sets 100 for both (`src/config/index.js:30-31`), and the model uses the configuration.
- The same header comment puts the last ten nights on 10–19 March. The code's list holds five dates, the odd nights 21 to 29 of Ramadan (`src/database/ramadanDates.js:55-57`), and the model uses that list.
- A search query containing `%` or `_` acts as a wildcard.
- The CHECK lists of `payment_method`, `approval_status` and `pricing_tier` contain NULL. Under SQL's three-valued logic, `x IN (..., NULL)` is never FALSE, so these constraints admit any text. The validators accept five payment methods (check, credit_card, cash, zelle, paypal), and the CSV export maps all five, so the model's `PaymentMethod` has those five values.
- The `old_values` snapshots of the audit log hold the row as read, which for getBookingById includes the enrichment keys. The model's snapshots omit those derived keys. The `new_values` of BOOKING_UPDATED_BY_ADMIN is the whole request body in the source, extra keys included. The model's snapshot keeps only the 17 allow-listed fields.

## Model

| member | source | states |
|---|---|---|
| Schema.ParsePaymentStatus | src/services/bookingService.js:305-308 | a status text is accepted exactly when it is the stored name of one of the five payment statuses |
| Schema.ParsePaymentStatusName | src/database/connection.js:42 | every payment status's stored name is accepted and parsed back to that status |
| Schema.SqlIn | src/database/connection.js:37-55 | `x IN (list)` is TRUE exactly when x is non-NULL and listed, and FALSE exactly when the list is empty or x is a non-NULL unlisted value and the list has no NULL |
| Schema.PaymentMethodCheckAdmitsAnyText | src/database/connection.js:37 | the `payment_method` CHECK, whose list holds NULL, admits every text, credit_card and paypal included |
| Schema.ApprovalAndTierChecksAdmitAnyText | src/database/connection.js:49-55 | the `approval_status` and `pricing_tier` CHECKs, whose lists hold NULL, admit every text |
| Schema.PaymentStatusCheckRestricts | src/database/connection.js:42 | the `payment_status` CHECK, whose list has no NULL, admits a text exactly when it is the name of one of the five payment statuses |
| Config.PricingByKey | src/config/index.js:34-53 | the three keys `weekday`, `weekend` and `lastTenNights` select the three tiers' rates and no other key selects any |
| Config.DefaultConsistent | src/config/index.js:34-53 | in the default configuration each tier's total is food plus cleaning, and every configured key yields the rates 1400 food + 100 cleaning = 1500 with the flat description |
| RamadanDates.GetPricing | src/database/ramadanDates.js:79-108 | the last ten nights take the lastTenNights rates and tier, otherwise Friday to Sunday take the weekend rates and the other days the weekday rates |
| RamadanDates.PricingAddsUp | src/database/ramadanDates.js:79-108 | in a consistent configuration the price's total is its food plus cleaning amount |
| RamadanDates.GetExpectedGuests | src/database/ramadanDates.js:111-113 | weekend days take the weekend guest count, other days the weekday count |
| RamadanDates.DatesStrictlyAscending | src/database/ramadanDates.js:18-52 | the calendar table is in strictly ascending date order |
| RamadanDates.DatesUnique | src/database/ramadanDates.js:18-52 | no two entries of the table share a date |
| RamadanDates.HijriDaysInOrder | src/database/ramadanDates.js:18-52 | entry k of the first thirty carries Hijri day k+1, and the Eid entry has a blank day |
| RamadanDates.LastTenNightsInCalendar | src/database/ramadanDates.js:55-57 | each last-ten-nights date is a calendar date on one of the odd nights 21 to 29 |
| RamadanDates.SpecialNightsAreLastTenNights | src/database/ramadanDates.js:60-66 | each special night is among the last ten nights |
| RamadanDates.InitialStatusLayout | src/database/ramadanDates.js:18-52 | the first three entries are blocked, the fourth is HMCC-sponsored, the last is Eid and every other entry is available |
| Records.FindByDate | src/services/bookingService.js:65-79 | the look-up returns the index of a row with that date, or None when no row has it |
| Records.FindById | src/services/bookingService.js:46-60 | the look-up returns the index of a row with that id, or None when no row has it |
| Records.FindByDateUnique | src/database/connection.js:15 | under the UNIQUE date key, the date look-up finds exactly the one row that carries the date |
| Records.FindByIdUnique | src/database/connection.js:14 | under the id primary key, the id look-up finds exactly the one row that carries the id |
| Records.UpdateKeepsKeys | src/database/connection.js:14-15 | rewriting a row so that its id and date are kept preserves both key constraints |
| AdminUpdates.ApplySetsEffect | src/services/bookingService.js:282-285 | after an UPDATE's SET list each assigned column holds the last value assigned to it and every other column keeps its value |
| AdminUpdates.SetClausesLast | src/services/bookingService.js:254-259 | after the loop over the allowed fields, the last value assigned to a column is the request's value when the column is an allowed field the request supplies, and no value is assigned to it otherwise |
| AdminUpdates.BuildAdminSetList | src/services/bookingService.js:254-276 | the loop over the allow-list followed by the total and balance steps builds exactly the SET list `AdminSetList` defines, whose effect on each column `AdminUpdateColumn` states |
| AdminUpdates.SetClausesEmpty | src/services/bookingService.js:254-259 | the loop builds no clause exactly when the request supplies none of the fields looped over |
| AdminUpdates.AdminSetListEmpty | src/services/bookingService.js:278-280 | the SET list is empty exactly when the request supplies none of the allowed fields |
| AdminUpdates.AdminUpdateColumn | src/services/bookingService.js:246-276 | every column assigned by the SET list, allowed or derived, ends with the value determined by the request and the old row; the columns the SET list cannot name keep their values and updated_at is the update's time |
| AdminUpdates.AdminUpdateContactFields | src/services/bookingService.js:246-259 | the sponsor, vendor, guest-count and notes fields take the request's value when supplied and keep the stored value otherwise |
| AdminUpdates.AdminUpdatePaymentFields | src/services/bookingService.js:246-259 | the food and cleaning amounts, payment method, check number, reference, amount paid, payment status and admin comment follow the same rule |
| AdminUpdates.AdminUpdateDerivedAmounts | src/services/bookingService.js:262-276 | when food or cleaning is supplied the total is their sum (each falling back to the stored value); when the amount paid is supplied the balance is the stored total less that amount |
| AdminUpdates.AdminUpdateKeepsRest | src/services/bookingService.js:236-293 | every column outside the SET list, including id, date and booking status, is unchanged, and updated_at is the update's time |
| AdminUpdates.AdminUpdateKeepsTotal | src/services/bookingService.js:262-268 | an update keeps total = food + cleaning on a row where it held |
| AdminUpdates.AdminBalanceUsesStoredTotal | src/services/bookingService.js:271-276 | with a stored total of 1500, setting food 2000, cleaning 100 and paid 500 gives a total of 2100 but a balance of 1000 |
| BookingService.CreateRefusal | src/services/bookingService.js:91-101 | the request is refused as blocked, as HMCC-sponsored, or as already booked or pending exactly for those statuses, and accepted on available and eid dates |
| BookingService.GuestsFor | src/services/bookingService.js:133 | a supplied non-zero head count is kept, and an absent or zero one takes the day's default |
| BookingService.CreatedRecord | src/services/bookingService.js:103-144 | the row becomes pending approval with the request's sponsor and vendor data, the date's price and tier, and the guest count; calendar, payment and approval-trail columns stay |
| BookingService.CreatedTotalAddsUp | src/services/bookingService.js:103-144 | in a consistent configuration a new request's total is its food plus cleaning amount |
| BookingService.ApprovedRecord | src/services/bookingService.js:155-181 | approval makes the row booked and approved, by that admin at that time, and changes nothing else |
| BookingService.RejectionText | src/services/bookingService.js:197-212 | a non-empty reason is kept, and otherwise the text is "Booking rejected by admin" |
| BookingService.RejectedRecord | src/services/bookingService.js:186-231 | rejection clears the sponsorship and payment and marks the row rejected with its reason; calendar, pricing, guest count, admin comment and approver stay |
| BookingService.CancelledRecord | src/services/bookingService.js:363-402 | cancellation clears the sponsorship, the payment and the whole approval trail and keeps the calendar entry, price and guest count |
| BookingService.PaymentUpdatedRecord | src/services/bookingService.js:310-343 | the payment columns change as supplied, the balance becomes total less paid when an amount is given, the payment date is set on completion, and nothing else changes |
| BookingService.PaymentKeepsBalance | src/services/bookingService.js:318-322 | a payment update leaves balance = total − paid whenever it held before or an amount was supplied |
| BookingService.BlockRefusal | src/services/bookingService.js:414-420 | blocking a booked date and any change to an HMCC date are refused, and everything else is allowed |
| BookingService.BlockStatusRecord | src/services/bookingService.js:422-426 | only the booking status (blocked or available) and updated_at change |
| BookingService.CreateThenCancelClears | src/services/bookingService.js:84-150 | a request followed by a cancellation leaves the sponsor columns empty, no approval status and the calendar entry as it was |
| BookingService.ApprovalOverridesBlock | src/services/bookingService.js:155-181 | a pending request whose date is then blocked can still be approved, and the date becomes booked |
| BookingService.UnblockKeepsSponsor | src/services/bookingService.js:407-437 | unblocking a date that holds a request makes it available again with the request's sponsor still recorded, and open to new requests |
| BookingService.RejectKeepsApprover | src/services/bookingService.js:186-231 | rejecting an approved booking leaves its approver and approval time recorded |
| BookingService.TransitionsKeepKeys | src/services/bookingService.js:84-437 | no transition changes a row's id or date |
| BookingService.StoreInvariantUpdate | src/database/connection.js:13-62 | rewriting one row with its keys kept preserves the store invariant |
| BookingService.ApprovalMovesPendingToBooked | src/services/bookingService.js:165-173 | approving a request pending approval moves its date from the pending to the booked tally of the statistics and keeps the expected total |
| BookingService.CalendarStore.InsertOrIgnore | src/database/init.js:30-51 | the row is appended exactly when neither its id nor its date is already present; otherwise the table is unchanged |
| BookingService.CalendarStore.DropAll | src/database/connection.js:109-114 | both tables are emptied |
| BookingService.CalendarStore.LogAudit | src/services/bookingService.js:514-528 | one entry stamped `now` is appended to the audit log and the bookings table is unchanged; with a clock that has not run backwards the log stays in time order |
| BookingService.CalendarStore.CreateBooking | src/services/bookingService.js:84-150 | an unknown date fails as not in the calendar and a refused status fails with its refusal, both leaving the tables unchanged; otherwise the row becomes CreatedRecord, one BOOKING_CREATED entry with no admin is logged, and the result is the row's enriched view, as getBookingByDate gives it |
| BookingService.CalendarStore.ApproveBooking | src/services/bookingService.js:155-181 | unknown ids and rows not pending approval fail unchanged; otherwise the row becomes ApprovedRecord, one BOOKING_APPROVED entry is logged, and the result is the new row's enriched view |
| BookingService.CalendarStore.RejectBooking | src/services/bookingService.js:186-231 | unknown ids fail unchanged; any existing row, whatever its status, becomes RejectedRecord and one BOOKING_REJECTED entry is logged, with the sponsor's email and name as they were; the result is the new row's enriched view |
| BookingService.CalendarStore.AdminUpdateBooking | src/services/bookingService.js:236-293 | unknown ids fail; an empty SET list returns the enriched view of the row as read and changes and logs nothing; otherwise the row becomes AdminUpdatedRecord, built by the loop over the allowed fields, one BOOKING_UPDATED_BY_ADMIN entry is logged, and the result is the new row's enriched view |
| BookingService.CalendarStore.UpdatePaymentStatus | src/services/bookingService.js:298-358 | unknown ids and invalid statuses fail unchanged; otherwise the row becomes PaymentUpdatedRecord, one PAYMENT_STATUS_UPDATED entry is logged, and the result is the new row's enriched view |
| BookingService.CalendarStore.CancelBooking | src/services/bookingService.js:363-402 | unknown ids fail unchanged; otherwise the row becomes CancelledRecord, one BOOKING_CANCELLED entry is logged, and the result is the new row's enriched view |
| BookingService.CalendarStore.SetDateBlockStatus | src/services/bookingService.js:407-437 | unknown ids fail as date not found and refused changes fail with their refusal; otherwise the row becomes BlockStatusRecord, one DATE_BLOCKED or DATE_UNBLOCKED entry is logged, and the result is the new row's enriched view |
| SqlLike.Like | src/services/bookingService.js:477-490 | `s LIKE p` holds only for strings at least as long as the pattern's characters other than `%`, and for a pattern without `%` only for strings of the pattern's length |
| SqlLike.PlainLikeIsFoldedEquality | src/services/bookingService.js:477-490 | without `%` or `_`, LIKE is equality of the ASCII case-folded strings |
| SqlLike.SearchIsFoldedSubstring | src/services/bookingService.js:477-490 | for a query without `%` or `_`, `s LIKE '%q%'` holds exactly when the ASCII case-folded `s` contains the case-folded query |
| SqlLike.EmptyQueryMatchesAll | src/services/bookingService.js:478 | the pattern built from the empty query matches every string |
| SqlLike.UnderscoreIsWildcard | src/services/bookingService.js:478 | an `_` in the query matches any character: "J_n" finds "Jan", which does not contain "J_n" |
| Queries.SortByDate | src/services/bookingService.js:22 | ORDER BY date returns a permutation of the rows in nondecreasing date order |
| Queries.FilterRows | src/services/bookingService.js:468-469 | a WHERE clause keeps exactly the rows that satisfy it |
| Queries.FilterRowsSorted | src/services/bookingService.js:468-469 | filtering rows in date order leaves them in date order |
| Queries.PricingDescriptionAsWritten | src/services/bookingService.js:38-41 | as written, the look-up by the stored tier tag gives no description for a NULL tier or for the last-ten-nights tier, and agrees with the corrected look-up on weekday and weekend |
| Queries.PricingDescription | src/services/bookingService.js:38-41 | a NULL tier has no description, and any other tier gets the description of the configuration entry that getPricing takes its rates from |
| Queries.DescriptionForEveryTier | src/services/bookingService.js:38-41 | under the default configuration every tier has the flat description, while the code as written gives none for the last ten nights |
| Queries.Enrich | src/services/bookingService.js:26-32 | a row's view marks it special exactly when its date is a special night, carries that night's information, marks the last ten nights, and adds its tier's description for weekday and weekend rows but null for a last-ten-nights row, as the code's look-up gives |
| Queries.SpecialNightViewIsLastTen | src/services/bookingService.js:26-32 | every row marked as a special night is also marked as one of the last ten nights |
| Queries.BookingById | src/services/bookingService.js:46-60 | the enriched row with that id, or None when no row has it |
| Queries.BookingByDate | src/services/bookingService.js:65-79 | the enriched row with that date, or None when no row has it |
| Queries.AllDates | src/services/bookingService.js:10-33 | getAllDates returns one enriched view per row, in date order, with the columns it does not select read as NULL |
| Queries.AllDatesListsEveryRow | src/services/bookingService.js:10-33 | every row of the table appears in the listing |
| Queries.PendingApprovals | src/services/bookingService.js:465-472 | exactly the rows whose approval status is pending, in date order |
| Queries.ExportRows | src/services/bookingService.js:495-509 | every row, as a permutation of the table in date order |
| Queries.SearchBookings | src/services/bookingService.js:477-490 | exactly the rows where one of sponsor name, email, phone or vendor name is LIKE the search pattern, in date order |
| Queries.MatchesQuery | src/services/bookingService.js:480-485 | a row can match a search only when at least one of sponsor name, email, phone and vendor name is non-NULL |
| Queries.SearchIsSubstringMatch | src/services/bookingService.js:477-490 | for a query without wildcards, a row matches exactly when one of the four non-NULL columns contains the query, letter case aside |
| Queries.EmptySearchFindsEveryContact | src/services/bookingService.js:477-490 | the empty query finds exactly the rows with at least one of the four columns non-NULL |
| Queries.GetStatistics | src/services/bookingService.js:442-460 | total_dates is the row count and every SUM column is NULL exactly on an empty table; otherwise the status tallies and the eid dates add up to the row count, payments_pending is at most booked_dates, the completed and partial tallies are disjoint, and total_expected and total_collected are the booked plus the pending-approval rows' totals and payments |
| Queries.SumCommittedSplit | src/services/bookingService.js:454-455 | a sum over the rows booked or pending approval is the booked rows' sum plus the pending rows' sum |
| Queries.PaymentTalliesDisjoint | src/services/bookingService.js:451-452 | the completed and partial tallies together never exceed the row count |
| Queries.SumAfterUpdate | src/services/bookingService.js:454-455 | rewriting one row takes its old amount out of a sum and adds its new amount |
| Queries.StatusTalliesPartition | src/services/bookingService.js:445-450 | the five status tallies plus the eid dates add up to the total number of dates |
| Queries.UnpaidAmongBooked | src/services/bookingService.js:447-453 | the payments_pending tally never exceeds the booked tally |
| Queries.CountAfterUpdate | src/services/bookingService.js:442-460 | rewriting one row moves it exactly from the tallies it leaves to the tallies it joins |
| Queries.CountPermutation | src/services/bookingService.js:442-460 | a tally is the same over any permutation of the rows |
| Queries.StatisticsOrderInsensitive | src/services/bookingService.js:442-460 | the tallies over the date-ordered table equal those over the table |
| Queries.AuditLogFor | src/services/bookingService.js:533-539 | a booking's audit log is a permutation of the entries written for that booking, ordered by created_at descending |
| Queries.InsertNewestKeepsOrder | src/services/bookingService.js:535 | placing one more entry keeps a newest-first sequence newest first |
| Queries.AuditLogNewestFirst | src/services/bookingService.js:533-539 | for a log written in time order, which the store keeps, a booking's audit log is its entries in reverse order of writing |
| Queries.AuditLogAppend | src/services/bookingService.js:514-539 | an entry stamped no earlier than every earlier entry goes to the head of its booking's audit log, after the booking's other entries in order of writing, and the other bookings' logs are unchanged |
| Records.ChronologicalAppend | src/services/bookingService.js:514-528 | appending an entry stamped no earlier than the newest entry keeps the log in time order |
| Init.SeedRecord | src/database/init.js:14-51 | the seeded row has the table's date, Hijri data and weekday, its initial status (available when none), the date's price, tier and guest count, and a pending payment; the sponsor is HMCC and the row approved exactly on the HMCC-sponsored date |
| Init.SeedRamadanDates | src/database/init.js:11-58 | the loop leaves the table equal to the seed fold over the 31 entries and writes no audit entry |
| Init.SeededExtends | src/database/init.js:31 | seeding only appends, and the rows already there stay first and unchanged |
| Init.SeededKeepsKeys | src/database/init.js:31 | seeding keeps ids and dates unique |
| Init.SeededHasEveryDate | src/database/init.js:11-58 | with fresh uuids every calendar date is in the table after seeding |
| Init.SeedingPresentDatesIsNoop | src/database/init.js:31 | when every date is already present, seeding inserts nothing |
| Init.SeedTwiceIsSeedOnce | src/database/init.js:11-58 | seeding twice, with any uuids the second time, gives the same table as seeding once |
| Init.SeedEmptyTable | src/database/init.js:11-58 | seeding an empty table gives exactly one seeded row per entry, in calendar order |
| Init.FreshSeedLayout | src/database/init.js:19-28 | a fresh seed has 31 rows with unique keys: 18–20 February blocked, 21 February HMCC's and the only sponsored row, 20 March Eid, and every other date available |
| Init.FixHijriDates | src/database/init.js:68-102 | the loop leaves the table equal to the repair fold over the 31 entries, and its counter equals the number of UPDATEs that affected a row |
| Init.FixPreservesBookings | src/database/init.js:63-66 | the repair changes no row's booking, sponsor or payment data, only the Hijri day, Hijri date, weekday and updated_at |
| Init.FixedAgrees | src/database/init.js:68-102 | after the repair every calendar date's row carries the table's Hijri day and date |
| Init.FixTwiceCountsZero | src/database/init.js:97-101 | a second repair changes nothing and counts no fixes |
| Init.Init | src/database/init.js:104-121 | a fresh start empties both tables first; then the table is seeded and repaired, and the fix count is that of the seeded table |
| Init.FreshInitIsSeedRows | src/database/init.js:104-121 | a fresh start leaves exactly the 31 seeded rows, with nothing for the repair to fix |
| Init.CancelRestoresSeed | src/services/bookingService.js:363-402 | a request without a head count on an open seeded date, once cancelled, returns the row to its seeded state apart from updated_at |
| Init.RejectRestoresSeed | src/services/bookingService.js:186-231 | rejecting such a request also returns the seeded row, marked rejected with its reason |
| CsvExport.ExportCells | src/routes/bookingRoutes.js:593-616 | each booking's row has exactly as many cells as the header list (22) |
| CsvExport.ExportTable | src/routes/bookingRoutes.js:593-616 | row k of the table is built from export booking k, in date order, and has 22 cells |
| CsvExport.PaidCellValues | src/routes/bookingRoutes.js:576-604 | the paid column is Y for completed, P for partial and N for every other status |
| CsvExport.MethodCellValues | src/routes/bookingRoutes.js:585-610 | the method column is Ch, CC, Cash, Zelle or PayPal for check, credit_card, cash, zelle and paypal, and empty exactly when no method is recorded |
| CsvExport.AmountCells | src/routes/bookingRoutes.js:601-606 | food, total and balance cells are empty exactly when the amount is zero, while a zero amount paid renders as "0" |
| CsvExport.CommentCellRule | src/routes/bookingRoutes.js:613 | the comment is the admin comment when non-empty, else the special notes, else empty |
| CsvExport.ReadEscaped | src/routes/bookingRoutes.js:621 | reading a quoted cell whose quotes were doubled gives back the original text and stops at its closing quote |
| CsvExport.ReadDataLine | src/routes/bookingRoutes.js:621 | a line of quoted cells joined by commas reads back as those cells |
| CsvExport.ReadDataLines | src/routes/bookingRoutes.js:619-622 | data lines joined by LF read back as the table, even when cells contain commas, quotes or line breaks |
| CsvExport.DocumentRoundTrip | src/routes/bookingRoutes.js:619-622 | a document reads back as its unquoted header line and every cell of every data line |
| CsvExport.ExportCsv | src/routes/bookingRoutes.js:545-622 | the export reads back as the joined header and, for each booking in date order, its 22 cells |
| Routes.PublicListing | src/routes/bookingRoutes.js:88-117 | entries come without the enrichment keys exactly when a search query was given |
| Routes.SearchListingIsSearchResults | src/routes/bookingRoutes.js:88-117 | with a non-empty query the listing has one entry, without enrichment keys, for each search result in date order; every matching row is listed whatever its booking status, and every entry is a matching row of the table |
| Routes.FilterCommutesWithEnrich | src/routes/bookingRoutes.js:95-96 | filtering the enriched views by status gives the same result as filtering the rows first |
| Routes.ListingIsFilteredTable | src/routes/bookingRoutes.js:92-117 | without a query, the listing equals the table's booked and pending rows, taken in date order, enriched and reduced to the public keys |
| Routes.ListingKeepsBookedAndPending | src/routes/bookingRoutes.js:92-117 | without a query, every entry is booked or pending, a row of the table is listed exactly when it is booked or pending, and the entries are in date order |
| Routes.BookingDetail | src/routes/bookingRoutes.js:136-142 | the detail fails with 404 "Booking not found" exactly when no row has the id |
| Routes.DetailRedaction | src/routes/bookingRoutes.js:145-184 | the contact, payment and approval keys are present exactly for an admin and then hold the row's values; the rest of the response is the same for both callers |
| Routes.CreateError | src/services/bookingService.js:84-101 | createBooking raises no error exactly when the date exists and its status is not refused |
| Routes.CreateStatusAsWritten | src/routes/bookingRoutes.js:263-265 | as written, the blocked and already-booked refusals get 409, but the HMCC-sponsored refusal, like an unknown date, gets no conflict status |
| Routes.CreateStatus | src/routes/bookingRoutes.js:263-265 | the corrected mapping gives 409 exactly for the blocked, HMCC-sponsored and already-booked-or-pending refusals |
| Routes.CreateConflictIffRefused | src/routes/bookingRoutes.js:263-265 | over every error createBooking raises, the corrected status is 409 exactly when the date exists, and the code as written agrees with it on every error but the HMCC-sponsored refusal, where it differs |

## Left out

- Express routing, request validation (express-validator chains in `src/middleware/validators.js`), authentication, sessions and JSON encoding: the model takes validated inputs and an "is admin" flag. The `admin_sessions` table is not part of this model.
- The error handler that turns errors into HTTP statuses is not part of this model. `Routes.CreateStatus` and `Routes.CreateStatusAsWritten` say only when 409 is given.
- The Excel and PDF exports, and the JSON export route, format through libraries, so they are not modelled.
- Concurrency: two requests racing between read and write are not modelled. Each operation is one atomic method.
- The IP address and user agent of audit entries are not modelled. The audit `created_at` is the operation's clock value.
- uuid generation and `datetime('now')`: both are parameters.
- `initializeDatabase` (CREATE TABLE IF NOT EXISTS and the indexes) is not modelled, because it does not change the rows. The model's tables start empty.
- Init.FixHijriDates: the source only logs its counter; the model returns it.
- Amounts are whole numbers, although the columns are REAL. Fractional amounts and their text form are not modelled.
- AdminUpdates.AdminUpdateDerivedAmounts: amounts are taken as JSON numbers. The validators check a numeric string with `isFloat` but do not convert it, so a body such as `{"food_amount": "2000"}` reaches `foodAmt + cleaningAmt` as text and concatenates ("2000" + 100 gives "2000100"). The model does not cover that input. For it, the proved total = food + cleaning does not hold in the source.
- AdminUpdates.AdminUpdateKeepsTotal: holds only for numeric amounts, for the same reason.
- AdminUpdates.Supplied: a field sent as `null` or `""` is skipped by the validators (`optional({checkFalsy: true})`) but reaches the service, whose test is `!== undefined`. The model cannot express a null or empty payment status, payment method or amount in an admin update. In the source, a null payment_status is stored as NULL (the CHECK admits NULL), an empty one violates the CHECK and the UPDATE fails, an empty payment_method is stored as "", and a null amount_paid is stored as NULL with the balance left equal to the total.
- BookingService.PaymentUpdatedRecord: a null `amount_paid` in a payment update is stored as NULL (the test is `!== undefined`), and the model cannot express it. The payment status itself must be one of the five names, as updatePaymentStatus checks.
- The seeding and repair error handlers (`catch` with logging) are not modelled, because a modelled statement cannot fail.
- Queries.Enrich: follows the code's description look-up, so a last-ten-nights row's view has a null `pricing_description`. The corrected look-up (`Queries.PricingDescription`) is proved beside it, but no view uses it.
- The audit log's order among entries with equal `created_at` is not specified by SQLite, and `datetime('now')` has one-second resolution. The model lists the later-written entry first.
- The clock: each store method requires that `now` is not earlier than the newest audit entry. The model does not cover a clock that runs backwards, under which the store would not keep its log in time order.
- Routes.PublicListing: searched results carry no enrichment keys (they are undefined in the source), and the model does not distinguish undefined from null beyond that.

## Findings

| source | as written | input that shows it | evidently intended | confidence | as-written member | corrected member |
|---|---|---|---|---|---|---|
| src/services/bookingService.js:38-41 | `config.pricing[tier]` is looked up with the stored tier tag, and the last-ten-nights tag is `last10nights` while the configuration key is `lastTenNights` | a booking on 2026-03-10 (pricing tier `last10nights`) gets `pricing_description` null | the description of the configuration entry the price was taken from | high; not executed | Queries.PricingDescriptionAsWritten | Queries.DescriptionForEveryTier |
| src/routes/bookingRoutes.js:263-265 | a failed create gets 409 only when its message contains "already booked", "blocked" or "pending" | a request for 2026-02-21 fails with "This date is sponsored by HMCC and cannot be booked", which contains none of the three | every refusal of an existing date is reported as a conflict (409), like the blocked and booked cases | medium; not executed | Routes.CreateStatusAsWritten | Routes.CreateConflictIffRefused |
