/**
 * Response shaping of the booking routes (src/routes/bookingRoutes.js):
 * the public listing of GET /bookings, the admin-dependent detail of
 * GET /bookings/:id and the status code a failed POST /bookings/date/:date
 * is given.  Express, the JSON encoding and the authentication middleware
 * are not modelled; whether the caller is an authenticated admin is a
 * parameter.
 */
module Routes {
  import opened Common
  import opened Schema
  import opened Config
  import opened RamadanDates
  import opened Records
  import opened BookingService
  import opened SqlLike
  import opened Queries

  // ---------------------------------------------------------------------------
  // GET /bookings

  /** The two enrichment keys; search results were never enriched and carry neither. */
  datatype NightInfo = NightInfo(isSpecialNight: bool, specialNightInfo: Option<SpecialNight>)

  /** The sixteen keys of a public listing entry. */
  datatype PublicEntry = PublicEntry(
    id: string, date: string, hijriDate: string, hijriDay: HijriDay, dayOfWeek: string,
    sponsorName: Option<string>, sponsorOrganization: Option<string>,
    foodVendorName: Option<string>, expectedGuests: Option<int>,
    bookingStatus: BookingStatus, approvalStatus: Option<ApprovalStatus>,
    paymentStatus: PaymentStatus, night: Option<NightInfo>,
    pricingTier: Option<Tier>, totalAmount: int)

  function PublicOf(r: DateRecord, night: Option<NightInfo>): (e: PublicEntry)
    ensures e.id == r.id && e.date == r.date && e.bookingStatus == r.bookingStatus && e.night == night
  {
    PublicEntry(r.id, r.date, r.hijriDate, r.hijriDay, r.dayOfWeek,
                r.sponsorName, r.sponsorOrganization, r.foodVendorName, r.expectedGuests,
                r.bookingStatus, r.approvalStatus, r.paymentStatus, night,
                r.pricingTier, r.totalAmount)
  }

  function PublicOfView(v: BookingView): PublicEntry
  {
    PublicOf(v.record, Some(NightInfo(v.isSpecialNight, v.specialNightInfo)))
  }

  /** `['booked', 'pending_approval'].includes(d.booking_status)`. */
  predicate Listed(r: DateRecord)
  {
    r.bookingStatus == Booked || r.bookingStatus == PendingApproval
  }

  /** `allDates.filter(...)`. */
  function ListedViews(vs: seq<BookingView>): seq<BookingView>
    decreases |vs|
  {
    if vs == [] then []
    else if Listed(vs[0].record) then [vs[0]] + ListedViews(vs[1..])
    else ListedViews(vs[1..])
  }

  function PublicEntries(vs: seq<BookingView>): (es: seq<PublicEntry>)
    ensures |es| == |vs|
    ensures forall k :: 0 <= k < |vs| ==> es[k] == PublicOfView(vs[k])
  {
    seq(|vs|, k requires 0 <= k < |vs| => PublicOfView(vs[k]))
  }

  /**
   * The `data` of GET /bookings: the search results for a non-empty `q`,
   * otherwise the booked and pending dates of getAllDates; each reduced to
   * the public keys.
   */
  function PublicListing(cfg: Settings, rows: seq<DateRecord>, q: Option<string>): (es: seq<PublicEntry>)
    ensures forall k :: 0 <= k < |es| ==> (es[k].night.None? <==> Truthy(q))
  {
    if Truthy(q) then
      var found := SearchBookings(rows, q.value);
      seq(|found|, k requires 0 <= k < |found| => PublicOf(found[k], None))
    else PublicEntries(ListedViews(AllDates(cfg, rows)))
  }

  /**
   * With a non-empty query the listing is the search results: one entry per
   * row that matches, without the enrichment keys, in date order, whatever
   * the row's booking status (this branch is not restricted to booked and
   * pending dates).
   */
  lemma SearchListingIsSearchResults(cfg: Settings, rows: seq<DateRecord>, q: string)
    requires q != ""
    ensures var es := PublicListing(cfg, rows, Some(q));
      var found := SearchBookings(rows, q);
      && |es| == |found|
      && (forall k :: 0 <= k < |es| ==> es[k] == PublicOf(found[k], None) && found[k] in rows && MatchesQuery(found[k], q))
      && (forall r :: r in rows && MatchesQuery(r, q) ==> PublicOf(r, None) in es)
      && (forall i, j :: 0 <= i < j < |es| ==> !LexLess(es[j].date, es[i].date))
  {
    var es := PublicListing(cfg, rows, Some(q));
    var found := SearchBookings(rows, q);
    forall r | r in rows && MatchesQuery(r, q) ensures PublicOf(r, None) in es {
      var k :| 0 <= k < |found| && found[k] == r;
      assert es[k] == PublicOf(r, None);
    }
    forall i, j | 0 <= i < j < |es| ensures !LexLess(es[j].date, es[i].date) {
      assert DateLe(found[i], found[j]);
    }
  }

  /** The listing written the other way round: filter the table in date order, then enrich and project. */
  function ListingReference(cfg: Settings, rows: seq<DateRecord>): seq<PublicEntry>
  {
    var f := FilterRows(SortByDate(rows), Listed);
    seq(|f|, k requires 0 <= k < |f| => PublicOfView(Enrich(cfg, ListingColumns(f[k]))))
  }

  function EnrichAll(cfg: Settings, s: seq<DateRecord>): (vs: seq<BookingView>)
    ensures |vs| == |s|
    ensures forall k :: 0 <= k < |s| ==> vs[k] == Enrich(cfg, ListingColumns(s[k]))
  {
    seq(|s|, k requires 0 <= k < |s| => Enrich(cfg, ListingColumns(s[k])))
  }

  /** Filtering the enriched views is filtering the rows first: the projection keeps the status. */
  lemma {:induction false} FilterCommutesWithEnrich(cfg: Settings, s: seq<DateRecord>)
    ensures ListedViews(EnrichAll(cfg, s)) == EnrichAll(cfg, FilterRows(s, Listed))
    decreases |s|
  {
    if s != [] {
      var vs := EnrichAll(cfg, s);
      assert vs[1..] == EnrichAll(cfg, s[1..]);
      FilterCommutesWithEnrich(cfg, s[1..]);
      if Listed(s[0]) {
        assert Listed(vs[0].record);
        EnrichAllCons(cfg, s[0], FilterRows(s[1..], Listed));
      } else {
        assert !Listed(vs[0].record);
      }
    }
  }

  lemma EnrichAllCons(cfg: Settings, x: DateRecord, t: seq<DateRecord>)
    ensures EnrichAll(cfg, [x] + t) == [Enrich(cfg, ListingColumns(x))] + EnrichAll(cfg, t)
  {
    var a, b := EnrichAll(cfg, [x] + t), [Enrich(cfg, ListingColumns(x))] + EnrichAll(cfg, t);
    forall k | 0 <= k < |a| ensures a[k] == b[k] {
      if k > 0 {
        assert ([x] + t)[k] == t[k - 1];
      }
    }
  }

  /** Without a query, the listing is the table's booked and pending rows, in date order. */
  lemma ListingIsFilteredTable(cfg: Settings, rows: seq<DateRecord>)
    ensures PublicListing(cfg, rows, None) == ListingReference(cfg, rows)
  {
    var s := SortByDate(rows);
    assert AllDates(cfg, rows) == EnrichAll(cfg, s);
    FilterCommutesWithEnrich(cfg, s);
  }

  /**
   * Without a query the listing holds an entry for exactly the booked and
   * pending rows of the table, and lists them in date order.
   */
  lemma ListingKeepsBookedAndPending(cfg: Settings, rows: seq<DateRecord>)
    ensures var es := PublicListing(cfg, rows, None);
      && (forall k :: 0 <= k < |es| ==> es[k].bookingStatus == Booked || es[k].bookingStatus == PendingApproval)
      && (forall r :: r in rows ==>
            (Listed(r) <==> PublicOfView(Enrich(cfg, ListingColumns(r))) in es))
      && (forall i, j :: 0 <= i < j < |es| ==> !LexLess(es[j].date, es[i].date))
  {
    ListingIsFilteredTable(cfg, rows);
    ReferenceStatuses(cfg, rows);
    ReferenceMembers(cfg, rows);
    ReferenceOrdered(cfg, rows);
  }

  lemma ReferenceStatuses(cfg: Settings, rows: seq<DateRecord>)
    ensures var es := ListingReference(cfg, rows);
      forall k :: 0 <= k < |es| ==> es[k].bookingStatus == Booked || es[k].bookingStatus == PendingApproval
  {
    var f := FilterRows(SortByDate(rows), Listed);
    var es := ListingReference(cfg, rows);
    forall k | 0 <= k < |es|
      ensures es[k].bookingStatus == Booked || es[k].bookingStatus == PendingApproval
    {
      assert Listed(f[k]);
      assert es[k].bookingStatus == f[k].bookingStatus;
    }
  }

  lemma ReferenceOrdered(cfg: Settings, rows: seq<DateRecord>)
    ensures var es := ListingReference(cfg, rows);
      forall i, j :: 0 <= i < j < |es| ==> !LexLess(es[j].date, es[i].date)
  {
    var s := SortByDate(rows);
    var f := FilterRows(s, Listed);
    var es := ListingReference(cfg, rows);
    FilterRowsSorted(s, Listed);
    forall i, j | 0 <= i < j < |es|
      ensures !LexLess(es[j].date, es[i].date)
    {
      assert DateLe(f[i], f[j]);
      assert es[i].date == f[i].date && es[j].date == f[j].date;
    }
  }

  lemma ReferenceMembers(cfg: Settings, rows: seq<DateRecord>)
    ensures var es := ListingReference(cfg, rows);
      forall r :: r in rows ==> (Listed(r) <==> PublicOfView(Enrich(cfg, ListingColumns(r))) in es)
  {
    var s := SortByDate(rows);
    var f := FilterRows(s, Listed);
    var es := ListingReference(cfg, rows);
    MultisetMembers(rows, s);
    forall r | r in rows
      ensures Listed(r) <==> PublicOfView(Enrich(cfg, ListingColumns(r))) in es
    {
      var e := PublicOfView(Enrich(cfg, ListingColumns(r)));
      if Listed(r) {
        var k :| 0 <= k < |f| && f[k] == r;
        assert es[k] == e;
      }
      if e in es {
        var k :| 0 <= k < |es| && es[k] == e;
        assert es[k].bookingStatus == f[k].bookingStatus;
      }
    }
  }

  // ---------------------------------------------------------------------------
  // GET /bookings/:id

  /** The keys added to the detail for an authenticated admin. */
  datatype AdminPart = AdminPart(
    sponsorEmail: Option<string>, sponsorPhone: Option<string>,
    foodVendorContactName: Option<string>, foodVendorPhone: Option<string>,
    specialNotes: Option<string>, paymentMethod: Option<PaymentMethod>,
    checkNumber: Option<string>, mohidReference: Option<string>,
    amountPaid: int, balance: int, adminComment: Option<string>,
    approvedBy: Option<string>, approvedAt: Option<Clock>)

  datatype Detail = Detail(
    entry: PublicEntry, foodAmount: int, cleaningAmount: int,
    pricingDescription: Option<string>, createdAt: Clock, updatedAt: Clock,
    admin: Option<AdminPart>)

  datatype Reply<+T> = Success(data: T) | Failure(status: nat, message: string)

  function AdminPartOf(r: DateRecord): AdminPart
  {
    AdminPart(r.sponsorEmail, r.sponsorPhone, r.foodVendorContactName, r.foodVendorPhone,
              r.specialNotes, r.paymentMethod, r.checkNumber, r.mohidReference,
              r.amountPaid, r.balance, r.adminComment, r.approvedBy, r.approvedAt)
  }

  function DetailOf(v: BookingView, isAdmin: bool): Detail
  {
    var r := v.record;
    Detail(PublicOfView(v), r.foodAmount, r.cleaningAmount, v.pricingDescription,
           r.createdAt, r.updatedAt, if isAdmin then Some(AdminPartOf(r)) else None)
  }

  function BookingDetail(cfg: Settings, rows: seq<DateRecord>, id: string, isAdmin: bool): (d: Reply<Detail>)
    ensures d.Failure? <==> !HasId(rows, id)
    ensures d.Failure? ==> d.status == 404 && d.message == ErrorMessage(BookingNotFound)
  {
    match BookingById(cfg, rows, id)
    case None => Failure(404, ErrorMessage(BookingNotFound))
    case Some(v) => Success(DetailOf(v, isAdmin))
  }

  /**
   * The contact, payment and approval keys are present exactly for an
   * admin, and then hold the row's own values; everything else is the same
   * for both callers.
   */
  lemma DetailRedaction(cfg: Settings, rows: seq<DateRecord>, id: string)
    requires UniqueKeys(rows) && HasId(rows, id)
    ensures var pub := BookingDetail(cfg, rows, id, false);
      var adm := BookingDetail(cfg, rows, id, true);
      && pub.Success? && adm.Success?
      && pub.data.admin.None? && adm.data.admin.Some?
      && pub.data == adm.data.(admin := None)
      && exists i :: 0 <= i < |rows| && rows[i].id == id && adm.data.admin.value == AdminPartOf(rows[i])
  {
    var i := FindById(rows, id).value;
    assert rows[i].id == id;
  }

  // ---------------------------------------------------------------------------
  // POST /bookings/date/:date failure status

  /** The error createBooking raises for a date, if any. */
  function CreateError(rows: seq<DateRecord>, date: string): (e: Option<ServiceError>)
    ensures e.None? <==> FindByDate(rows, date).Some? && CreateRefusal(rows[FindByDate(rows, date).value]).None?
  {
    match FindByDate(rows, date)
    case None => Some(DateNotInCalendar)
    case Some(i) => CreateRefusal(rows[i])
  }

  /**
   * The route's test as written: 409 when the message mentions one of three
   * words. Of createBooking's four errors, the blocked and already-booked
   * refusals get 409, while the HMCC-sponsored refusal, whose message has none
   * of the words, gets no conflict status, like an unknown date.
   */
  function CreateStatusAsWritten(e: ServiceError): (s: Option<nat>)
    ensures e == DateIsBlocked || e == AlreadyBookedOrPending ==> s == Some(409)
    ensures e == DateIsHmccSponsored || e == DateNotInCalendar ==> s.None?
  {
    ConflictMessagesHaveWords();
    HmccMessageLacksWords();
    NotFoundMessageLacksWords();
    var m := ErrorMessage(e);
    if Contains(m, "already booked") || Contains(m, "blocked") || Contains(m, "pending") then Some(409) else None
  }

  /** The status the conflict taxonomy calls for: every refusal of an existing date is a conflict. */
  function CreateStatus(e: ServiceError): (s: Option<nat>)
    ensures s == Some(409) <==> e == DateIsBlocked || e == DateIsHmccSponsored || e == AlreadyBookedOrPending
  {
    match e
    case DateIsBlocked | DateIsHmccSponsored | AlreadyBookedOrPending => Some(409)
    case _ => None
  }

  lemma NotFoundMessageLacksWords()
    ensures !Contains(ErrorMessage(DateNotInCalendar), "already booked")
    ensures !Contains(ErrorMessage(DateNotInCalendar), "blocked")
    ensures !Contains(ErrorMessage(DateNotInCalendar), "pending")
  {
    var m := ErrorMessage(DateNotInCalendar);
    NotFoundTextLacks(m);
    assert "already booked"[11] == 'k' && "blocked"[4] == 'k' && "pending"[6] == 'g';
    NotContainsByChar(m, "already booked", 11);
    NotContainsByChar(m, "blocked", 4);
    NotContainsByChar(m, "pending", 6);
  }

  lemma HmccMessageLacksWords()
    ensures !Contains(ErrorMessage(DateIsHmccSponsored), "already booked")
    ensures !Contains(ErrorMessage(DateIsHmccSponsored), "blocked")
    ensures !Contains(ErrorMessage(DateIsHmccSponsored), "pending")
  {
    var m := ErrorMessage(DateIsHmccSponsored);
    HmccTextLacks(m, 'l');
    HmccTextLacks(m, 'g');
    assert "already booked"[1] == 'l' && "blocked"[1] == 'l' && "pending"[6] == 'g';
    NotContainsByChar(m, "already booked", 1);
    NotContainsByChar(m, "blocked", 1);
    NotContainsByChar(m, "pending", 6);
  }

  lemma NotFoundTextLacks(m: string)
    requires m == ErrorMessage(DateNotInCalendar)
    ensures Absent(m, 'k') && Absent(m, 'g')
  {
    var a, b := "Date not found ", "in Ramadan calendar";
    assert m == a + b by { assert m == "Date not found " + "in Ramadan calendar"; }
    assert Absent(a, 'k') && Absent(b, 'k') && Absent(a, 'g') && Absent(b, 'g');
    AbsentConcat(a, b, 'k');
    AbsentConcat(a, b, 'g');
  }

  lemma HmccTextLacks(m: string, ch: char)
    requires m == ErrorMessage(DateIsHmccSponsored) && (ch == 'l' || ch == 'g')
    ensures Absent(m, ch)
  {
    var a, b, c, d := "This date is ", "sponsored by ", "HMCC and cannot ", "be booked";
    HmccTextPieces(m);
    assert Absent(a, ch);
    assert Absent(b, ch);
    assert Absent(c, ch);
    assert Absent(d, ch);
    AbsentConcat(a, b, ch);
    AbsentConcat(a + b, c, ch);
    AbsentConcat(a + b + c, d, ch);
  }

  lemma HmccTextPieces(m: string)
    requires m == ErrorMessage(DateIsHmccSponsored)
    ensures m == "This date is " + "sponsored by " + "HMCC and cannot " + "be booked"
  {
  }

  lemma ConflictMessagesHaveWords()
    ensures Contains(ErrorMessage(DateIsBlocked), "blocked")
    ensures Contains(ErrorMessage(AlreadyBookedOrPending), "already booked")
  {
    ContainsAt(ErrorMessage(DateIsBlocked), "blocked", 13);
    ContainsAt(ErrorMessage(AlreadyBookedOrPending), "already booked", 13);
  }

  /**
   * Over every error createBooking can raise, the corrected status is 409
   * exactly when the date exists but is not open, and the route's test
   * agrees with it everywhere but on HMCC-sponsored dates.
   */
  lemma CreateConflictIffRefused(rows: seq<DateRecord>, date: string)
    requires CreateError(rows, date).Some?
    ensures var e := CreateError(rows, date).value;
      && (CreateStatus(e) == Some(409) <==> FindByDate(rows, date).Some?)
      && (e != DateIsHmccSponsored ==> CreateStatusAsWritten(e) == CreateStatus(e))
      && (e == DateIsHmccSponsored ==> CreateStatusAsWritten(e) != CreateStatus(e))
  {
  }
}
