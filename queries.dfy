/**
 * The read-only side of BookingService (src/services/bookingService.js):
 * `ORDER BY date ASC`, the enrichment of a row with its special-night and
 * pricing information, the statistics query, pending approvals, the export
 * list and the audit log of one booking.
 */
module Queries {
  import opened Common
  import opened Schema
  import opened Config
  import opened RamadanDates
  import opened Records
  import opened SqlLike

  // ---------------------------------------------------------------------------
  // ORDER BY date ASC

  /** `a` may come before `b` in date order. */
  predicate DateLe(a: DateRecord, b: DateRecord)
  {
    !LexLess(b.date, a.date)
  }

  predicate SortedByDate(s: seq<DateRecord>)
  {
    forall i, j :: 0 <= i < j < |s| ==> DateLe(s[i], s[j])
  }

  lemma DateLeTransitive(a: DateRecord, b: DateRecord, c: DateRecord)
    requires DateLe(a, b) && DateLe(b, c)
    ensures DateLe(a, c)
  {
    if LexLess(c.date, a.date) {
      if a.date == b.date {
      } else {
        LexLessTotal(a.date, b.date);
        LexLessTransitive(c.date, a.date, b.date);
      }
    }
  }

  lemma DateLeTotal(a: DateRecord, b: DateRecord)
    ensures DateLe(a, b) || DateLe(b, a)
  {
    if LexLess(b.date, a.date) {
      LexLessAsymmetric(b.date, a.date);
    }
  }

  /** One insertion step of the sort. */
  function InsertByDate(r: DateRecord, s: seq<DateRecord>): (t: seq<DateRecord>)
    ensures multiset(t) == multiset(s) + multiset{r}
    ensures |t| == |s| + 1
    decreases |s|
  {
    if s == [] then [r]
    else if LexLess(s[0].date, r.date) then
      assert s == [s[0]] + s[1..];
      [s[0]] + InsertByDate(r, s[1..])
    else [r] + s
  }

  lemma SortedTail(s: seq<DateRecord>)
    requires SortedByDate(s) && s != []
    ensures SortedByDate(s[1..])
  {
    var rest := s[1..];
    forall i, j | 0 <= i < j < |rest| ensures DateLe(rest[i], rest[j]) {
      assert rest[i] == s[i + 1] && rest[j] == s[j + 1];
    }
  }

  lemma SortedCons(x: DateRecord, s: seq<DateRecord>)
    requires SortedByDate(s)
    requires forall k :: 0 <= k < |s| ==> DateLe(x, s[k])
    ensures SortedByDate([x] + s)
  {
    var t := [x] + s;
    forall i, j | 0 <= i < j < |t|
      ensures DateLe(t[i], t[j])
    {
      if i == 0 {
        assert t[j] == s[j - 1];
      } else {
        assert t[i] == s[i - 1] && t[j] == s[j - 1];
      }
    }
  }

  /** A head that precedes the inserted row still precedes everything after insertion. */
  lemma InsertKeepsLowerBound(x: DateRecord, r: DateRecord, rest: seq<DateRecord>)
    requires DateLe(x, r)
    requires forall k :: 0 <= k < |rest| ==> DateLe(x, rest[k])
    ensures forall k :: 0 <= k < |InsertByDate(r, rest)| ==> DateLe(x, InsertByDate(r, rest)[k])
  {
    var tail := InsertByDate(r, rest);
    forall k | 0 <= k < |tail|
      ensures DateLe(x, tail[k])
    {
      assert tail[k] in multiset(tail);
      if tail[k] in multiset(rest) {
        var m :| 0 <= m < |rest| && rest[m] == tail[k];
      }
    }
  }

  lemma {:induction false} InsertByDateSorted(r: DateRecord, s: seq<DateRecord>)
    requires SortedByDate(s)
    ensures SortedByDate(InsertByDate(r, s))
    decreases |s|
  {
    if s == [] {
    } else if LexLess(s[0].date, r.date) {
      SortedTail(s);
      InsertByDateSorted(r, s[1..]);
      LexLessAsymmetric(s[0].date, r.date);
      forall k | 0 <= k < |s[1..]| ensures DateLe(s[0], s[1..][k]) {
        assert s[1..][k] == s[k + 1];
      }
      InsertKeepsLowerBound(s[0], r, s[1..]);
      SortedCons(s[0], InsertByDate(r, s[1..]));
    } else {
      forall k | 0 <= k < |s| ensures DateLe(r, s[k]) {
        if k > 0 {
          DateLeTransitive(r, s[0], s[k]);
        }
      }
      SortedCons(r, s);
    }
  }

  /** The rows in `ORDER BY date ASC`: sorted by date and a permutation of the table. */
  function SortByDate(rows: seq<DateRecord>): (s: seq<DateRecord>)
    ensures multiset(s) == multiset(rows)
    ensures |s| == |rows|
    ensures SortedByDate(s)
    decreases |rows|
  {
    if rows == [] then []
    else
      assert rows == [rows[0]] + rows[1..];
      InsertByDateSorted(rows[0], SortByDate(rows[1..]));
      InsertByDate(rows[0], SortByDate(rows[1..]))
  }

  /** Under the UNIQUE constraint on `date`, date order is strict. */
  lemma SortedUniqueStrict(s: seq<DateRecord>, i: nat, j: nat)
    requires SortedByDate(s) && UniqueKeys(s) && i < j < |s|
    ensures LexLess(s[i].date, s[j].date)
  {
    LexLessTotal(s[i].date, s[j].date);
  }

  /** `WHERE <p>`, keeping the order of the input. */
  function FilterRows(rows: seq<DateRecord>, p: DateRecord -> bool): (s: seq<DateRecord>)
    ensures |s| <= |rows|
    ensures forall k :: 0 <= k < |s| ==> p(s[k])
    ensures forall x :: x in s <==> x in rows && p(x)
    decreases |rows|
  {
    if rows == [] then []
    else if p(rows[0]) then [rows[0]] + FilterRows(rows[1..], p)
    else FilterRows(rows[1..], p)
  }

  lemma {:induction false} FilterRowsSorted(rows: seq<DateRecord>, p: DateRecord -> bool)
    requires SortedByDate(rows)
    ensures SortedByDate(FilterRows(rows, p))
    decreases |rows|
  {
    if rows != [] {
      var rest := rows[1..];
      SortedTail(rows);
      FilterRowsSorted(rest, p);
      var tail := FilterRows(rest, p);
      if p(rows[0]) {
        forall k | 0 <= k < |tail|
          ensures DateLe(rows[0], tail[k])
        {
          assert tail[k] in rest;
          var m :| 0 <= m < |rest| && rest[m] == tail[k];
          assert rest[m] == rows[m + 1];
        }
        SortedCons(rows[0], tail);
      }
    }
  }

  // ---------------------------------------------------------------------------
  // Enrichment of a row (getAllDates, getBookingById, getBookingByDate)

  /**
   * The key of `config.pricing` each stored tier tag is meant to select.
   * The stored tag of the last ten nights is "last10nights" while the
   * configuration key is "lastTenNights".
   */
  function TierKey(t: Tier): string
  {
    match t
    case Weekday => "weekday"
    case Weekend => "weekend"
    case Last10Nights => "lastTenNights"
  }

  lemma TierKeySelectsRates(cfg: Settings, t: Tier)
    ensures PricingByKey(cfg, TierKey(t)) == Some(RatesFor(cfg, t))
  {
  }

  /**
   * getPricingDescription as written: `config.pricing[tier]?.description || null`,
   * indexed by the stored tag itself. The tag "last10nights" is not a key of the
   * pricing object, so that tier has no description; the weekday and weekend
   * tags are keys and get the description of their own rates.
   */
  function PricingDescriptionAsWritten(cfg: Settings, tier: Option<Tier>): (d: Option<string>)
    ensures tier.None? || tier == Some(Last10Nights) ==> d.None?
    ensures tier == Some(Weekday) || tier == Some(Weekend) ==> d == PricingDescription(cfg, tier)
  {
    match tier
    case None => None
    case Some(t) =>
      match PricingByKey(cfg, TierName(t))
      case None => None
      case Some(rates) => OrNull(Some(rates.description))
  }

  /** getPricingDescription with the tier tag mapped to its configuration key. */
  function PricingDescription(cfg: Settings, tier: Option<Tier>): (d: Option<string>)
    ensures tier.None? ==> d.None?
    ensures tier.Some? && RatesFor(cfg, tier.value).description != "" ==> d == Some(RatesFor(cfg, tier.value).description)
    ensures tier.Some? && RatesFor(cfg, tier.value).description == "" ==> d.None?
  {
    match tier
    case None => None
    case Some(t) =>
      TierKeySelectsRates(cfg, t);
      match PricingByKey(cfg, TierKey(t))
      case None => None
      case Some(rates) => OrNull(Some(rates.description))
  }

  /** With the shipped configuration every priced date, the last ten nights included, has its description. */
  lemma DescriptionForEveryTier(t: Tier)
    ensures PricingDescription(Default, Some(t)) == Some(FlatDescription)
    ensures t == Last10Nights ==> PricingDescriptionAsWritten(Default, Some(t)).None?
  {
  }

  datatype BookingView = BookingView(
    record: DateRecord,
    isSpecialNight: bool,
    specialNightInfo: Option<SpecialNight>,
    isLastTenNights: bool,
    pricingDescription: Option<string>)

  function Enrich(cfg: Settings, r: DateRecord): (v: BookingView)
    ensures v.record == r
    ensures v.isSpecialNight <==> r.date in SpecialNights
    ensures v.specialNightInfo.Some? <==> v.isSpecialNight
    ensures v.specialNightInfo.Some? ==> v.specialNightInfo.value == SpecialNights[r.date]
    ensures v.isLastTenNights <==> IsLastTenNights(r.date)
    ensures r.pricingTier != Some(Last10Nights) ==> v.pricingDescription == PricingDescription(cfg, r.pricingTier)
    ensures r.pricingTier == Some(Last10Nights) ==> v.pricingDescription.None?
  {
    BookingView(r, r.date in SpecialNights,
                if r.date in SpecialNights then Some(SpecialNights[r.date]) else None,
                IsLastTenNights(r.date), PricingDescriptionAsWritten(cfg, r.pricingTier))
  }

  /** Every special night is one of the last ten nights, so its view says so. */
  lemma SpecialNightViewIsLastTen(cfg: Settings, r: DateRecord)
    requires r.date in SpecialNights
    ensures Enrich(cfg, r).isLastTenNights
  {
    SpecialNightsAreLastTenNights();
    assert r.date in SpecialNights.Keys;
  }

  /** getBookingById: the enriched row with that id, if any. */
  function BookingById(cfg: Settings, rows: seq<DateRecord>, id: string): (v: Option<BookingView>)
    ensures v.Some? <==> HasId(rows, id)
    ensures v.Some? ==> v.value.record in rows && v.value.record.id == id
  {
    match FindById(rows, id)
    case None => None
    case Some(i) => Some(Enrich(cfg, rows[i]))
  }

  /** getBookingByDate: the enriched row of that date, if any. */
  function BookingByDate(cfg: Settings, rows: seq<DateRecord>, date: string): (v: Option<BookingView>)
    ensures v.Some? <==> HasDate(rows, date)
    ensures v.Some? ==> v.value.record in rows && v.value.record.date == date
  {
    match FindByDate(rows, date)
    case None => None
    case Some(i) => Some(Enrich(cfg, rows[i]))
  }

  /** The columns getAllDates selects; the others read as NULL. */
  function ListingColumns(r: DateRecord): (c: DateRecord)
    ensures c.id == r.id && c.date == r.date && c.bookingStatus == r.bookingStatus
  {
    r.(specialNotes := None, checkNumber := None, mohidReference := None, paymentDate := None,
       approvedBy := None, approvedAt := None, rejectionReason := None)
  }

  /** getAllDates: every row, in date order, projected and enriched. */
  function AllDates(cfg: Settings, rows: seq<DateRecord>): (vs: seq<BookingView>)
    ensures |vs| == |rows|
    ensures forall k :: 0 <= k < |vs| ==> vs[k] == Enrich(cfg, ListingColumns(SortByDate(rows)[k]))
    ensures forall i, j :: 0 <= i < j < |vs| ==> !LexLess(vs[j].record.date, vs[i].record.date)
  {
    var s := SortByDate(rows);
    seq(|s|, k requires 0 <= k < |s| => Enrich(cfg, ListingColumns(s[k])))
  }

  /** Every row of the table appears in getAllDates. */
  lemma AllDatesListsEveryRow(cfg: Settings, rows: seq<DateRecord>, r: DateRecord)
    requires r in rows
    ensures exists k :: 0 <= k < |AllDates(cfg, rows)| && AllDates(cfg, rows)[k].record.id == r.id
  {
    var s := SortByDate(rows);
    assert r in multiset(rows);
    assert r in multiset(s);
    var k :| 0 <= k < |s| && s[k] == r;
    assert AllDates(cfg, rows)[k].record.id == r.id;
  }

  // ---------------------------------------------------------------------------
  // getPendingApprovals, getAllBookingsForExport

  predicate AwaitingApproval(r: DateRecord)
  {
    r.approvalStatus == Some(ApprovalPending)
  }

  /** getPendingApprovals: exactly the rows awaiting approval, in date order. */
  function PendingApprovals(rows: seq<DateRecord>): (s: seq<DateRecord>)
    ensures forall x :: x in s <==> x in rows && AwaitingApproval(x)
    ensures SortedByDate(s)
  {
    FilterRowsSorted(SortByDate(rows), AwaitingApproval);
    MultisetMembers(rows, SortByDate(rows));
    FilterRows(SortByDate(rows), AwaitingApproval)
  }

  lemma MultisetMembers(a: seq<DateRecord>, b: seq<DateRecord>)
    requires multiset(a) == multiset(b)
    ensures forall x :: x in a <==> x in b
  {
    forall x
      ensures x in a <==> x in b
    {
      assert x in a <==> x in multiset(a);
      assert x in b <==> x in multiset(b);
    }
  }

  /** getAllBookingsForExport: every row, in date order. */
  function ExportRows(rows: seq<DateRecord>): (s: seq<DateRecord>)
    ensures multiset(s) == multiset(rows) && SortedByDate(s)
  {
    SortByDate(rows)
  }

  // ---------------------------------------------------------------------------
  // searchBookings

  /** A nullable column against the LIKE pattern: NULL never matches. */
  predicate FieldLike(f: Option<string>, q: string)
  {
    f.Some? && Like(f.value, SearchPattern(q))
  }

  /** The four columns searchBookings looks in. */
  predicate MatchesQuery(r: DateRecord, q: string)
    ensures MatchesQuery(r, q) ==>
      r.sponsorName.Some? || r.sponsorEmail.Some? || r.sponsorPhone.Some? || r.foodVendorName.Some?
  {
    FieldLike(r.sponsorName, q) || FieldLike(r.sponsorEmail, q)
    || FieldLike(r.sponsorPhone, q) || FieldLike(r.foodVendorName, q)
  }

  /** searchBookings: the matching rows, in date order. */
  function SearchBookings(rows: seq<DateRecord>, q: string): (s: seq<DateRecord>)
    ensures forall x :: x in s <==> x in rows && MatchesQuery(x, q)
    ensures SortedByDate(s)
  {
    FilterRowsSorted(SortByDate(rows), r => MatchesQuery(r, q));
    MultisetMembers(rows, SortByDate(rows));
    FilterRows(SortByDate(rows), r => MatchesQuery(r, q))
  }

  /** For a query without `%` or `_`, a row matches when one of the four columns contains it, letter case aside. */
  lemma SearchIsSubstringMatch(r: DateRecord, q: string)
    requires Plain(q)
    ensures MatchesQuery(r, q) <==>
      || (r.sponsorName.Some? && Contains(Fold(r.sponsorName.value), Fold(q)))
      || (r.sponsorEmail.Some? && Contains(Fold(r.sponsorEmail.value), Fold(q)))
      || (r.sponsorPhone.Some? && Contains(Fold(r.sponsorPhone.value), Fold(q)))
      || (r.foodVendorName.Some? && Contains(Fold(r.foodVendorName.value), Fold(q)))
  {
    if r.sponsorName.Some? { SearchIsFoldedSubstring(r.sponsorName.value, q); }
    if r.sponsorEmail.Some? { SearchIsFoldedSubstring(r.sponsorEmail.value, q); }
    if r.sponsorPhone.Some? { SearchIsFoldedSubstring(r.sponsorPhone.value, q); }
    if r.foodVendorName.Some? { SearchIsFoldedSubstring(r.foodVendorName.value, q); }
  }

  /** The empty query returns every row with a sponsor name, email, phone or vendor name. */
  lemma EmptySearchFindsEveryContact(r: DateRecord)
    ensures MatchesQuery(r, "") <==>
      r.sponsorName.Some? || r.sponsorEmail.Some? || r.sponsorPhone.Some? || r.foodVendorName.Some?
  {
    if r.sponsorName.Some? { EmptyQueryMatchesAll(r.sponsorName.value); }
    if r.sponsorEmail.Some? { EmptyQueryMatchesAll(r.sponsorEmail.value); }
    if r.sponsorPhone.Some? { EmptyQueryMatchesAll(r.sponsorPhone.value); }
    if r.foodVendorName.Some? { EmptyQueryMatchesAll(r.foodVendorName.value); }
  }

  // ---------------------------------------------------------------------------
  // getStatistics

  function CountWhere(rows: seq<DateRecord>, p: DateRecord -> bool): (n: nat)
    ensures n <= |rows|
    decreases |rows|
  {
    if rows == [] then 0 else (if p(rows[0]) then 1 else 0) + CountWhere(rows[1..], p)
  }

  function SumWhere(rows: seq<DateRecord>, p: DateRecord -> bool, f: DateRecord -> int): int
    decreases |rows|
  {
    if rows == [] then 0 else (if p(rows[0]) then f(rows[0]) else 0) + SumWhere(rows[1..], p, f)
  }

  /** SQL `SUM` over the table: NULL when there are no rows at all. */
  function SqlSum(rows: seq<DateRecord>, total: int): (s: Option<int>)
    ensures s.None? <==> rows == []
  {
    if rows == [] then None else Some(total)
  }

  datatype Statistics = Statistics(
    totalDates: nat,
    availableDates: Option<int>,
    bookedDates: Option<int>,
    pendingDates: Option<int>,
    blockedDates: Option<int>,
    hmccSponsoredDates: Option<int>,
    paymentsCompleted: Option<int>,
    paymentsPartial: Option<int>,
    paymentsPending: Option<int>,
    totalExpected: Option<int>,
    totalCollected: Option<int>)

  predicate IsAvailable(r: DateRecord) { r.bookingStatus == Available }
  predicate IsBooked(r: DateRecord) { r.bookingStatus == Booked }
  predicate IsPendingApproval(r: DateRecord) { r.bookingStatus == PendingApproval }
  predicate IsBlocked(r: DateRecord) { r.bookingStatus == Blocked }
  predicate IsHmccSponsored(r: DateRecord) { r.bookingStatus == HmccSponsored }
  predicate IsEid(r: DateRecord) { r.bookingStatus == Eid }
  predicate PaymentCompleted(r: DateRecord) { r.paymentStatus == Completed }
  predicate PaymentPartial(r: DateRecord) { r.paymentStatus == Partial }
  function TotalOf(r: DateRecord): int { r.totalAmount }
  function PaidOf(r: DateRecord): int { r.amountPaid }

  predicate Committed(r: DateRecord)
  {
    r.bookingStatus == Booked || r.bookingStatus == PendingApproval
  }

  predicate UnpaidBooked(r: DateRecord)
  {
    r.paymentStatus == PaymentPending && r.bookingStatus == Booked
  }

  /**
   * getStatistics: the count of rows, and SUM columns that are NULL on an
   * empty table. Otherwise the five status tallies and the uncounted eid
   * dates add up to the row count, unpaid bookings are among the booked
   * dates, and the expected and collected amounts are the booked plus the
   * pending-approval rows' totals and payments.
   */
  function GetStatistics(rows: seq<DateRecord>): (st: Statistics)
    ensures st.totalDates == |rows|
    ensures rows == [] <==> st.availableDates.None?
    ensures rows == [] <==> st.bookedDates.None?
    ensures rows == [] <==> st.pendingDates.None?
    ensures rows == [] <==> st.blockedDates.None?
    ensures rows == [] <==> st.hmccSponsoredDates.None?
    ensures rows == [] <==> st.paymentsCompleted.None?
    ensures rows == [] <==> st.paymentsPartial.None?
    ensures rows == [] <==> st.paymentsPending.None?
    ensures rows == [] <==> st.totalExpected.None?
    ensures rows == [] <==> st.totalCollected.None?
    ensures rows != [] ==>
      st.availableDates.value + st.bookedDates.value + st.pendingDates.value + st.blockedDates.value
      + st.hmccSponsoredDates.value + CountWhere(rows, IsEid) == |rows|
    ensures rows != [] ==> 0 <= st.paymentsPending.value <= st.bookedDates.value
    ensures rows != [] ==> st.paymentsCompleted.value + st.paymentsPartial.value <= |rows|
    ensures rows != [] ==>
      st.totalExpected.value == SumWhere(rows, IsBooked, TotalOf) + SumWhere(rows, IsPendingApproval, TotalOf)
    ensures rows != [] ==>
      st.totalCollected.value == SumWhere(rows, IsBooked, PaidOf) + SumWhere(rows, IsPendingApproval, PaidOf)
  {
    StatusTalliesPartition(rows);
    UnpaidAmongBooked(rows);
    PaymentTalliesDisjoint(rows);
    SumCommittedSplit(rows, TotalOf);
    SumCommittedSplit(rows, PaidOf);
    Statistics(
      |rows|,
      SqlSum(rows, CountWhere(rows, IsAvailable)),
      SqlSum(rows, CountWhere(rows, IsBooked)),
      SqlSum(rows, CountWhere(rows, IsPendingApproval)),
      SqlSum(rows, CountWhere(rows, IsBlocked)),
      SqlSum(rows, CountWhere(rows, IsHmccSponsored)),
      SqlSum(rows, CountWhere(rows, PaymentCompleted)),
      SqlSum(rows, CountWhere(rows, PaymentPartial)),
      SqlSum(rows, CountWhere(rows, UnpaidBooked)),
      SqlSum(rows, SumWhere(rows, Committed, TotalOf)),
      SqlSum(rows, SumWhere(rows, Committed, PaidOf)))
  }

  /** The status tallies partition the table, with the eid dates the only ones not tallied. */
  lemma {:induction false} StatusTalliesPartition(rows: seq<DateRecord>)
    ensures CountWhere(rows, IsAvailable) + CountWhere(rows, IsBooked)
          + CountWhere(rows, IsPendingApproval) + CountWhere(rows, IsBlocked)
          + CountWhere(rows, IsHmccSponsored) + CountWhere(rows, IsEid) == |rows|
    decreases |rows|
  {
    if rows != [] {
      StatusTalliesPartition(rows[1..]);
    }
  }

  lemma {:induction false} CountMonotone(rows: seq<DateRecord>, p: DateRecord -> bool, q: DateRecord -> bool)
    requires forall r :: p(r) ==> q(r)
    ensures CountWhere(rows, p) <= CountWhere(rows, q)
    decreases |rows|
  {
    if rows != [] {
      CountMonotone(rows[1..], p, q);
    }
  }

  /** Bookings awaiting payment are among the booked dates. */
  lemma UnpaidAmongBooked(rows: seq<DateRecord>)
    ensures CountWhere(rows, UnpaidBooked) <= CountWhere(rows, IsBooked)
  {
    CountMonotone(rows, UnpaidBooked, IsBooked);
  }

  /** Completed and partial payments are disjoint tallies of the table. */
  lemma {:induction false} PaymentTalliesDisjoint(rows: seq<DateRecord>)
    ensures CountWhere(rows, PaymentCompleted) + CountWhere(rows, PaymentPartial) <= |rows|
    decreases |rows|
  {
    if rows != [] {
      PaymentTalliesDisjoint(rows[1..]);
    }
  }

  /** The committed amount is the booked rows' amount plus the pending-approval rows' amount. */
  lemma {:induction false} SumCommittedSplit(rows: seq<DateRecord>, f: DateRecord -> int)
    ensures SumWhere(rows, Committed, f) == SumWhere(rows, IsBooked, f) + SumWhere(rows, IsPendingApproval, f)
    decreases |rows|
  {
    if rows != [] {
      SumCommittedSplit(rows[1..], f);
    }
  }

  /** Rewriting one row takes its old amount out of a sum and puts its new amount in. */
  lemma {:induction false} SumAfterUpdate(rows: seq<DateRecord>, i: nat, n: DateRecord, p: DateRecord -> bool, f: DateRecord -> int)
    requires i < |rows|
    ensures SumWhere(rows[i := n], p, f) == SumWhere(rows, p, f) - (if p(rows[i]) then f(rows[i]) else 0) + (if p(n) then f(n) else 0)
    decreases |rows|
  {
    if i > 0 {
      assert rows[i := n][1..] == rows[1..][i - 1 := n];
      SumAfterUpdate(rows[1..], i - 1, n, p, f);
    } else {
      assert rows[i := n][1..] == rows[1..];
    }
  }

  /** Rewriting one row moves it from the tallies it left to the tallies it joins. */
  lemma {:induction false} CountAfterUpdate(rows: seq<DateRecord>, i: nat, n: DateRecord, p: DateRecord -> bool)
    requires i < |rows|
    ensures CountWhere(rows[i := n], p) == CountWhere(rows, p) - (if p(rows[i]) then 1 else 0) + (if p(n) then 1 else 0)
    decreases |rows|
  {
    if i > 0 {
      assert rows[i := n][1..] == rows[1..][i - 1 := n];
      CountAfterUpdate(rows[1..], i - 1, n, p);
    } else {
      assert rows[i := n][1..] == rows[1..];
    }
  }

  /** The same count over a permutation of the rows. */
  lemma {:induction false} CountPermutation(a: seq<DateRecord>, b: seq<DateRecord>, p: DateRecord -> bool)
    requires multiset(a) == multiset(b)
    ensures CountWhere(a, p) == CountWhere(b, p)
    decreases |a|
  {
    if a == [] {
      assert |b| == |multiset(b)| == 0;
    } else {
      assert a[0] in multiset(b);
      var k :| 0 <= k < |b| && b[k] == a[0];
      RemoveFromMultiset(a, b, k);
      CountPermutation(a[1..], b[..k] + b[k + 1..], p);
      CountRemove(b, k, p);
    }
  }

  lemma RemoveFromMultiset(a: seq<DateRecord>, b: seq<DateRecord>, k: nat)
    requires multiset(a) == multiset(b) && a != [] && k < |b| && b[k] == a[0]
    ensures multiset(a[1..]) == multiset(b[..k] + b[k + 1..])
  {
    assert a == [a[0]] + a[1..];
    assert b == b[..k] + [b[k]] + b[k + 1..];
    assert multiset(a[1..]) == multiset(a) - multiset{a[0]};
    assert multiset(b[..k] + b[k + 1..]) == multiset(b) - multiset{b[k]};
  }

  lemma CountRemove(b: seq<DateRecord>, k: nat, p: DateRecord -> bool)
    requires k < |b|
    ensures CountWhere(b, p) == (if p(b[k]) then 1 else 0) + CountWhere(b[..k] + b[k + 1..], p)
  {
    var x, y, z := b[..k], b[k..], b[k + 1..];
    assert b == x + y;
    assert y == [b[k]] + z;
    CountSplit(x, y, p);
    CountCons(b[k], z, p);
    CountSplit(x, z, p);
  }

  lemma CountCons(x: DateRecord, t: seq<DateRecord>, p: DateRecord -> bool)
    ensures CountWhere([x] + t, p) == (if p(x) then 1 else 0) + CountWhere(t, p)
  {
    assert ([x] + t)[1..] == t;
  }

  lemma {:induction false} CountSplit(a: seq<DateRecord>, b: seq<DateRecord>, p: DateRecord -> bool)
    ensures CountWhere(a + b, p) == CountWhere(a, p) + CountWhere(b, p)
    decreases |a|
  {
    if a == [] {
      assert a + b == b;
    } else {
      assert (a + b)[1..] == a[1..] + b;
      CountSplit(a[1..], b, p);
    }
  }

  /** The statistics do not depend on the order of the rows. */
  lemma StatisticsOrderInsensitive(rows: seq<DateRecord>)
    ensures CountWhere(SortByDate(rows), Committed) == CountWhere(rows, Committed)
    ensures CountWhere(SortByDate(rows), IsAvailable) == CountWhere(rows, IsAvailable)
  {
    CountPermutation(SortByDate(rows), rows, Committed);
    CountPermutation(SortByDate(rows), rows, IsAvailable);
  }

  // ---------------------------------------------------------------------------
  // getAuditLog

  /** `WHERE booking_id = ?` in append order. */
  function EntriesFor(log: seq<AuditEntry>, id: string): (s: seq<AuditEntry>)
    ensures forall e :: e in s <==> e in log && e.bookingId == id
    decreases |log|
  {
    if log == [] then []
    else
      var init := EntriesFor(log[..|log| - 1], id);
      assert log == log[..|log| - 1] + [log[|log| - 1]];
      if log[|log| - 1].bookingId == id then init + [log[|log| - 1]] else init
  }

  function Reverse<T>(s: seq<T>): (r: seq<T>)
    ensures |r| == |s|
    ensures forall k :: 0 <= k < |s| ==> r[k] == s[|s| - 1 - k]
    decreases |s|
  {
    if s == [] then [] else [s[|s| - 1]] + Reverse(s[..|s| - 1])
  }

  /** Newest first: `created_at` never increases along the sequence. */
  predicate NewestFirst(s: seq<AuditEntry>)
  {
    forall i, j :: 0 <= i < j < |s| ==> s[i].createdAt >= s[j].createdAt
  }

  /**
   * One step of ORDER BY created_at DESC: e goes before the first entry that is
   * not newer than it, so among equal timestamps the later-written comes first.
   */
  function InsertNewest(e: AuditEntry, s: seq<AuditEntry>): (r: seq<AuditEntry>)
    ensures multiset(r) == multiset(s) + multiset{e}
    ensures |r| == |s| + 1
    decreases |s|
  {
    if s == [] || e.createdAt >= s[0].createdAt then [e] + s
    else
      assert s == [s[0]] + s[1..];
      [s[0]] + InsertNewest(e, s[1..])
  }

  lemma {:induction false} InsertNewestKeepsOrder(e: AuditEntry, s: seq<AuditEntry>)
    requires NewestFirst(s)
    ensures NewestFirst(InsertNewest(e, s))
    decreases |s|
  {
    if s != [] && e.createdAt < s[0].createdAt {
      var t := s[1..];
      assert NewestFirst(t);
      InsertNewestKeepsOrder(e, t);
      var r := InsertNewest(e, t);
      forall k | 0 <= k < |r| ensures s[0].createdAt >= r[k].createdAt {
        assert r[k] in multiset(t) + multiset{e};
        if r[k] != e {
          var m :| 0 <= m < |t| && t[m] == r[k];
          assert s[m + 1] == r[k];
        }
      }
    }
  }

  /**
   * getAuditLog: one booking's entries in order of `created_at`, newest first;
   * entries with equal timestamps come out later-written first.
   */
  function AuditLogFor(log: seq<AuditEntry>, id: string): (s: seq<AuditEntry>)
    ensures multiset(s) == multiset(EntriesFor(log, id))
    ensures forall e :: e in s <==> e in log && e.bookingId == id
    ensures NewestFirst(s)
    decreases |log|
  {
    if log == [] then []
    else
      var init := log[..|log| - 1];
      var last := log[|log| - 1];
      var s0 := AuditLogFor(init, id);
      assert log == init + [last];
      if last.bookingId == id then
        InsertNewestKeepsOrder(last, s0);
        assert forall e :: e in InsertNewest(last, s0) <==> e in multiset(s0) + multiset{last};
        InsertNewest(last, s0)
      else s0
  }

  lemma {:induction false} EntriesForChronological(log: seq<AuditEntry>, id: string)
    requires Chronological(log)
    ensures Chronological(EntriesFor(log, id))
    ensures forall k :: 0 <= k < |EntriesFor(log, id)| ==> EntriesFor(log, id)[k] in log
    decreases |log|
  {
    if log != [] {
      var init := log[..|log| - 1];
      var last := log[|log| - 1];
      assert Chronological(init);
      EntriesForChronological(init, id);
      if last.bookingId == id {
        var f := EntriesFor(init, id) + [last];
        forall i, j | 0 <= i < j < |f|
          ensures f[i].createdAt <= f[j].createdAt
        {
          if j == |f| - 1 {
            var m :| 0 <= m < |init| && init[m] == f[i];
            assert log[m] == f[i];
          }
        }
      }
    }
  }

  lemma ReverseSnoc<T>(s: seq<T>, x: T)
    ensures Reverse(s + [x]) == [x] + Reverse(s)
  {
    assert (s + [x])[..|s + [x]| - 1] == s;
  }

  /**
   * When entries are written in time order, as a clock that never runs
   * backwards gives, the audit log is the booking's entries in reverse order
   * of writing.
   */
  lemma {:induction false} AuditLogNewestFirst(log: seq<AuditEntry>, id: string)
    requires Chronological(log)
    ensures AuditLogFor(log, id) == Reverse(EntriesFor(log, id))
    decreases |log|
  {
    if log != [] {
      var init := log[..|log| - 1];
      var last := log[|log| - 1];
      ChronologicalInit(log);
      AuditLogNewestFirst(init, id);
      AuditLogAppend(init, last, id);
      if last.bookingId == id {
        ReverseSnoc(EntriesFor(init, id), last);
      }
    }
  }

  lemma ChronologicalInit(log: seq<AuditEntry>)
    requires Chronological(log) && log != []
    ensures Chronological(log[..|log| - 1])
    ensures forall k :: 0 <= k < |log| - 1 ==> log[k].createdAt <= log[|log| - 1].createdAt
  {
  }

  /**
   * An entry written no earlier than every entry before it goes to the head
   * of its booking's audit log and leaves other bookings' logs alone.
   */
  lemma AuditLogAppend(init: seq<AuditEntry>, last: AuditEntry, id: string)
    requires forall k :: 0 <= k < |init| ==> init[k].createdAt <= last.createdAt
    ensures AuditLogFor(init + [last], id) == if last.bookingId == id then [last] + AuditLogFor(init, id) else AuditLogFor(init, id)
    ensures EntriesFor(init + [last], id) == if last.bookingId == id then EntriesFor(init, id) + [last] else EntriesFor(init, id)
  {
    assert (init + [last])[..|init + [last]| - 1] == init;
    var s0 := AuditLogFor(init, id);
    if last.bookingId == id && s0 != [] {
      assert s0[0] in init;
    }
  }
}
