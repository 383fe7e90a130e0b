/**
 * The mutating operations of BookingService (src/services/bookingService.js)
 * over the `bookings` and `audit_log` tables.  Each operation looks its row
 * up, checks the same conditions in the same order, rewrites that one row as
 * a pure transition function describes, and appends one audit entry.
 */
module BookingService {
  import opened Common
  import opened Schema
  import opened Config
  import opened RamadanDates
  import opened Records
  import opened AdminUpdates
  import opened Queries

  // ---------------------------------------------------------------------------
  // Field groups the transitions keep or reset

  /** The seeded calendar columns and the row's creation time. */
  predicate SameCalendarEntry(a: DateRecord, b: DateRecord)
  {
    && a.id == b.id && a.date == b.date && a.hijriDate == b.hijriDate
    && a.hijriDay == b.hijriDay && a.dayOfWeek == b.dayOfWeek && a.createdAt == b.createdAt
  }

  /** The price the row was booked at. */
  predicate SamePricing(a: DateRecord, b: DateRecord)
  {
    && a.foodAmount == b.foodAmount && a.cleaningAmount == b.cleaningAmount
    && a.totalAmount == b.totalAmount && a.pricingTier == b.pricingTier
  }

  /** The payment bookkeeping that createBooking does not write. */
  predicate SamePaymentRecord(a: DateRecord, b: DateRecord)
  {
    && a.checkNumber == b.checkNumber && a.mohidReference == b.mohidReference
    && a.amountPaid == b.amountPaid && a.balance == b.balance
    && a.paymentStatus == b.paymentStatus && a.paymentDate == b.paymentDate
  }

  /** The reset rejectBooking and cancelBooking share: no sponsor, no vendor, no payment, available. */
  predicate SponsorshipCleared(n: DateRecord)
  {
    && n.sponsorName.None? && n.sponsorEmail.None? && n.sponsorPhone.None? && n.sponsorOrganization.None?
    && n.foodVendorName.None? && n.foodVendorContactName.None? && n.foodVendorPhone.None?
    && n.specialNotes.None? && n.paymentMethod.None? && n.checkNumber.None? && n.mohidReference.None?
    && n.amountPaid == 0 && n.balance == 0 && n.paymentStatus == PaymentPending && n.paymentDate.None?
    && n.bookingStatus == Available
  }

  // ---------------------------------------------------------------------------
  // createBooking

  /** The refusals of createBooking, in the order it tests them; eid dates are not refused. */
  function CreateRefusal(r: DateRecord): (e: Option<ServiceError>)
    ensures e.None? <==> r.bookingStatus == Available || r.bookingStatus == Eid
    ensures e == Some(DateIsBlocked) <==> r.bookingStatus == Blocked
    ensures e == Some(DateIsHmccSponsored) <==> r.bookingStatus == HmccSponsored
    ensures e == Some(AlreadyBookedOrPending) <==> r.bookingStatus == Booked || r.bookingStatus == PendingApproval
  {
    match r.bookingStatus
    case Blocked => Some(DateIsBlocked)
    case HmccSponsored => Some(DateIsHmccSponsored)
    case Booked | PendingApproval => Some(AlreadyBookedOrPending)
    case Available | Eid => None
  }

  /** `bookingData.expected_guests || expectedGuests`: an absent or zero head count takes the day's default. */
  function GuestsFor(cfg: Settings, req: BookingRequest, dayOfWeek: string): (g: int)
    ensures req.expectedGuests.Some? && req.expectedGuests.value != 0 ==> g == req.expectedGuests.value
    ensures req.expectedGuests.None? || req.expectedGuests.value == 0 ==> g == GetExpectedGuests(cfg, dayOfWeek)
  {
    if req.expectedGuests.Some? && req.expectedGuests.value != 0 then req.expectedGuests.value
    else GetExpectedGuests(cfg, dayOfWeek)
  }

  /** The row after createBooking's UPDATE. */
  function CreatedRecord(cfg: Settings, r: DateRecord, req: BookingRequest, now: Clock): (n: DateRecord)
    ensures n.bookingStatus == PendingApproval && n.approvalStatus == Some(ApprovalPending)
    ensures var p := GetPricing(cfg, r.date, r.dayOfWeek);
      && n.foodAmount == p.foodAmount && n.cleaningAmount == p.cleaningAmount
      && n.totalAmount == p.total && n.pricingTier == Some(p.tier)
    ensures n.sponsorName == Some(req.sponsorName)
    ensures && n.sponsorEmail == OrNull(req.sponsorEmail) && n.sponsorPhone == OrNull(req.sponsorPhone)
            && n.sponsorOrganization == OrNull(req.sponsorOrganization)
            && n.foodVendorName == OrNull(req.foodVendorName)
            && n.foodVendorContactName == OrNull(req.foodVendorContactName)
            && n.foodVendorPhone == OrNull(req.foodVendorPhone)
            && n.specialNotes == OrNull(req.specialNotes) && n.paymentMethod == req.paymentMethod
    ensures n.expectedGuests == Some(GuestsFor(cfg, req, r.dayOfWeek))
    ensures SameCalendarEntry(r, n) && SamePaymentRecord(r, n)
    ensures && n.approvedBy == r.approvedBy && n.approvedAt == r.approvedAt
            && n.rejectionReason == r.rejectionReason && n.adminComment == r.adminComment
    ensures n.updatedAt == now
  {
    var p := GetPricing(cfg, r.date, r.dayOfWeek);
    r.(sponsorName := Some(req.sponsorName),
       sponsorEmail := OrNull(req.sponsorEmail),
       sponsorPhone := OrNull(req.sponsorPhone),
       sponsorOrganization := OrNull(req.sponsorOrganization),
       foodVendorName := OrNull(req.foodVendorName),
       foodVendorContactName := OrNull(req.foodVendorContactName),
       foodVendorPhone := OrNull(req.foodVendorPhone),
       expectedGuests := Some(GuestsFor(cfg, req, r.dayOfWeek)),
       specialNotes := OrNull(req.specialNotes),
       foodAmount := p.foodAmount,
       cleaningAmount := p.cleaningAmount,
       totalAmount := p.total,
       pricingTier := Some(p.tier),
       paymentMethod := req.paymentMethod,
       bookingStatus := PendingApproval,
       approvalStatus := Some(ApprovalPending),
       updatedAt := now)
  }

  /** Under a consistent configuration a new request's total is its food plus cleaning amounts. */
  lemma CreatedTotalAddsUp(cfg: Settings, r: DateRecord, req: BookingRequest, now: Clock)
    requires Consistent(cfg)
    ensures var n := CreatedRecord(cfg, r, req, now); n.totalAmount == n.foodAmount + n.cleaningAmount
  {
    PricingAddsUp(cfg, r.date, r.dayOfWeek);
  }

  // ---------------------------------------------------------------------------
  // approveBooking, rejectBooking, cancelBooking

  /** The row after approveBooking: booked, approved by the admin now, and nothing else changed. */
  function ApprovedRecord(r: DateRecord, admin: string, now: Clock): (n: DateRecord)
    ensures n.bookingStatus == Booked && n.approvalStatus == Some(Approved)
    ensures n.approvedBy == Some(admin) && n.approvedAt == Some(now) && n.updatedAt == now
    ensures n.(bookingStatus := r.bookingStatus, approvalStatus := r.approvalStatus,
               approvedBy := r.approvedBy, approvedAt := r.approvedAt, updatedAt := r.updatedAt) == r
  {
    r.(bookingStatus := Booked, approvalStatus := Some(Approved), approvedBy := Some(admin),
       approvedAt := Some(now), updatedAt := now)
  }

  const DefaultRejectionReason: string := "Booking rejected by admin"

  /** `rejectionReason || 'Booking rejected by admin'`. */
  function RejectionText(reason: Option<string>): (t: string)
    ensures t != ""
    ensures Truthy(reason) ==> t == reason.value
    ensures !Truthy(reason) ==> t == DefaultRejectionReason
  {
    if Truthy(reason) then reason.value else DefaultRejectionReason
  }

  /**
   * The row after rejectBooking: sponsorship cleared and marked rejected.
   * The guest count, the price, the admin comment and any earlier approver
   * stay as they were (the UPDATE does not name them).
   */
  function RejectedRecord(r: DateRecord, reason: Option<string>, now: Clock): (n: DateRecord)
    ensures SponsorshipCleared(n)
    ensures n.approvalStatus == Some(Rejected) && n.rejectionReason == Some(RejectionText(reason))
    ensures SameCalendarEntry(r, n) && SamePricing(r, n) && n.expectedGuests == r.expectedGuests
    ensures n.approvedBy == r.approvedBy && n.approvedAt == r.approvedAt && n.adminComment == r.adminComment
    ensures n.updatedAt == now
  {
    r.(sponsorName := None, sponsorEmail := None, sponsorPhone := None, sponsorOrganization := None,
       foodVendorName := None, foodVendorContactName := None, foodVendorPhone := None,
       specialNotes := None, paymentMethod := None, checkNumber := None, mohidReference := None,
       amountPaid := 0, balance := 0, paymentStatus := PaymentPending, paymentDate := None,
       bookingStatus := Available, approvalStatus := Some(Rejected),
       rejectionReason := Some(RejectionText(reason)), updatedAt := now)
  }

  /**
   * The row after cancelBooking: sponsorship and the whole approval trail
   * cleared; the guest count and the price stay.
   */
  function CancelledRecord(r: DateRecord, now: Clock): (n: DateRecord)
    ensures SponsorshipCleared(n)
    ensures && n.approvalStatus.None? && n.approvedBy.None? && n.approvedAt.None?
            && n.rejectionReason.None? && n.adminComment.None?
    ensures SameCalendarEntry(r, n) && SamePricing(r, n) && n.expectedGuests == r.expectedGuests
    ensures n.updatedAt == now
  {
    r.(sponsorName := None, sponsorEmail := None, sponsorPhone := None, sponsorOrganization := None,
       foodVendorName := None, foodVendorContactName := None, foodVendorPhone := None,
       specialNotes := None, paymentMethod := None, checkNumber := None, mohidReference := None,
       amountPaid := 0, balance := 0, paymentStatus := PaymentPending, paymentDate := None,
       bookingStatus := Available, approvalStatus := None, approvedBy := None, approvedAt := None,
       rejectionReason := None, adminComment := None, updatedAt := now)
  }

  // ---------------------------------------------------------------------------
  // updatePaymentStatus

  /** The row after updatePaymentStatus with an accepted status. */
  function PaymentUpdatedRecord(r: DateRecord, status: PaymentStatus, p: PaymentUpdate, now: Clock): (n: DateRecord)
    ensures n.paymentStatus == status
    ensures p.amountPaid.Some? ==> n.amountPaid == p.amountPaid.value && n.balance == r.totalAmount - p.amountPaid.value
    ensures p.amountPaid.None? ==> n.amountPaid == r.amountPaid && n.balance == r.balance
    ensures n.paymentMethod == if p.paymentMethod.Some? then p.paymentMethod else r.paymentMethod
    ensures n.checkNumber == if Truthy(p.checkNumber) then p.checkNumber else r.checkNumber
    ensures n.mohidReference == if Truthy(p.mohidReference) then p.mohidReference else r.mohidReference
    ensures n.paymentDate == if status == Completed then Some(now) else r.paymentDate
    ensures n.updatedAt == now
    ensures n.(paymentStatus := r.paymentStatus, amountPaid := r.amountPaid, balance := r.balance,
               paymentMethod := r.paymentMethod, checkNumber := r.checkNumber,
               mohidReference := r.mohidReference, paymentDate := r.paymentDate,
               updatedAt := r.updatedAt) == r
  {
    var paid := if p.amountPaid.Some? then p.amountPaid.value else r.amountPaid;
    var balance := if p.amountPaid.Some? then r.totalAmount - p.amountPaid.value else r.balance;
    r.(paymentStatus := status,
       amountPaid := paid,
       balance := balance,
       paymentMethod := if p.paymentMethod.Some? then p.paymentMethod else r.paymentMethod,
       checkNumber := if Truthy(p.checkNumber) then p.checkNumber else r.checkNumber,
       mohidReference := if Truthy(p.mohidReference) then p.mohidReference else r.mohidReference,
       paymentDate := if status == Completed then Some(now) else r.paymentDate,
       updatedAt := now)
  }

  /** The balance is what is left to pay on the stored total. */
  predicate BalanceSettled(r: DateRecord)
  {
    r.balance == r.totalAmount - r.amountPaid
  }

  /** A payment update keeps the balance equal to total less paid whenever it was. */
  lemma PaymentKeepsBalance(r: DateRecord, status: PaymentStatus, p: PaymentUpdate, now: Clock)
    requires BalanceSettled(r) || p.amountPaid.Some?
    ensures BalanceSettled(PaymentUpdatedRecord(r, status, p, now))
  {
  }

  // ---------------------------------------------------------------------------
  // setDateBlockStatus

  /** The refusals of setDateBlockStatus, in the order it tests them. */
  function BlockRefusal(r: DateRecord, blocked: bool): (e: Option<ServiceError>)
    ensures e == Some(CannotBlockBooked) <==> r.bookingStatus == Booked && blocked
    ensures e == Some(CannotModifyHmccDate) <==> r.bookingStatus == HmccSponsored
    ensures e.None? <==> !(r.bookingStatus == Booked && blocked) && r.bookingStatus != HmccSponsored
  {
    if r.bookingStatus == Booked && blocked then Some(CannotBlockBooked)
    else if r.bookingStatus == HmccSponsored then Some(CannotModifyHmccDate)
    else None
  }

  function BlockStatus(blocked: bool): BookingStatus
  {
    if blocked then Blocked else Available
  }

  /** The row after setDateBlockStatus: only the booking status (and updated_at) changes. */
  function BlockStatusRecord(r: DateRecord, blocked: bool, now: Clock): (n: DateRecord)
    ensures n.bookingStatus == (if blocked then Blocked else Available) && n.updatedAt == now
    ensures n.(bookingStatus := r.bookingStatus, updatedAt := r.updatedAt) == r
  {
    r.(bookingStatus := BlockStatus(blocked), updatedAt := now)
  }

  // ---------------------------------------------------------------------------
  // Properties of the transitions

  /** A fresh request on an available date, then a cancellation, returns the sponsor columns to empty. */
  lemma CreateThenCancelClears(cfg: Settings, r: DateRecord, req: BookingRequest, t1: Clock, t2: Clock)
    ensures var n := CancelledRecord(CreatedRecord(cfg, r, req, t1), t2);
      SponsorshipCleared(n) && n.approvalStatus.None? && SameCalendarEntry(r, n)
  {
  }

  /**
   * A pending request whose date is then blocked can still be approved:
   * approveBooking looks only at the approval status, so the blocked date
   * becomes booked.
   */
  lemma ApprovalOverridesBlock(cfg: Settings, r: DateRecord, req: BookingRequest, admin: string, t1: Clock, t2: Clock, t3: Clock)
    requires CreateRefusal(r).None?
    ensures var created := CreatedRecord(cfg, r, req, t1);
      var blocked := BlockStatusRecord(created, true, t2);
      && BlockRefusal(created, true).None?
      && blocked.bookingStatus == Blocked
      && blocked.approvalStatus == Some(ApprovalPending)
      && ApprovedRecord(blocked, admin, t3).bookingStatus == Booked
  {
  }

  /** Unblocking a date that holds a pending request frees it for booking but keeps the request's sponsor. */
  lemma UnblockKeepsSponsor(cfg: Settings, r: DateRecord, req: BookingRequest, t1: Clock, t2: Clock, t3: Clock)
    requires CreateRefusal(r).None?
    ensures var blocked := BlockStatusRecord(CreatedRecord(cfg, r, req, t1), true, t2);
      var unblocked := BlockStatusRecord(blocked, false, t3);
      && BlockRefusal(blocked, false).None?
      && unblocked.bookingStatus == Available
      && unblocked.sponsorName == Some(req.sponsorName)
      && CreateRefusal(unblocked).None?
  {
  }

  /** Rejecting an approved booking leaves its approver recorded beside the rejection. */
  lemma RejectKeepsApprover(r: DateRecord, admin: string, reason: Option<string>, t1: Clock, t2: Clock)
    ensures var n := RejectedRecord(ApprovedRecord(r, admin, t1), reason, t2);
      n.approvalStatus == Some(Rejected) && n.approvedBy == Some(admin) && n.approvedAt == Some(t1)
  {
  }

  /** Every transition keeps the row's id and date, so the table's keys survive it. */
  lemma TransitionsKeepKeys(cfg: Settings, r: DateRecord, req: BookingRequest, admin: string,
                            reason: Option<string>, status: PaymentStatus, p: PaymentUpdate,
                            u: AdminUpdate, blocked: bool, now: Clock)
    ensures SameKey(r, CreatedRecord(cfg, r, req, now)) && SameKey(r, ApprovedRecord(r, admin, now))
    ensures SameKey(r, RejectedRecord(r, reason, now)) && SameKey(r, CancelledRecord(r, now))
    ensures SameKey(r, PaymentUpdatedRecord(r, status, p, now)) && SameKey(r, BlockStatusRecord(r, blocked, now))
    ensures SameKey(r, AdminUpdatedRecord(r, u, now))
  {
    AdminUpdateKeepsRest(r, u, now);
  }

  /**
   * Approving a pending request moves its date from the pending to the booked
   * tally of getStatistics and leaves the expected total as it was.
   */
  lemma ApprovalMovesPendingToBooked(rows: seq<DateRecord>, i: nat, admin: string, now: Clock)
    requires i < |rows| && rows[i].bookingStatus == PendingApproval
    ensures CountWhere(rows[i := ApprovedRecord(rows[i], admin, now)], IsBooked) == CountWhere(rows, IsBooked) + 1
    ensures CountWhere(rows[i := ApprovedRecord(rows[i], admin, now)], IsPendingApproval) == CountWhere(rows, IsPendingApproval) - 1
    ensures SumWhere(rows[i := ApprovedRecord(rows[i], admin, now)], Committed, TotalOf) == SumWhere(rows, Committed, TotalOf)
  {
    var n := ApprovedRecord(rows[i], admin, now);
    CountAfterUpdate(rows, i, n, IsBooked);
    CountAfterUpdate(rows, i, n, IsPendingApproval);
    SumAfterUpdate(rows, i, n, Committed, TotalOf);
  }

  // ---------------------------------------------------------------------------
  // The tables

  /** createBooking is the only call of logAudit that passes no administrator. */
  predicate WellAttributed(e: AuditEntry)
  {
    e.performedBy.None? <==> e.action == BookingCreated
  }

  /**
   * The key constraints of `bookings`; every audit entry attributed and about
   * an existing row; and the entries in time order, as `datetime('now')` stamps them.
   */
  predicate StoreInvariant(rows: seq<DateRecord>, log: seq<AuditEntry>)
  {
    && UniqueKeys(rows)
    && (forall k :: 0 <= k < |log| ==> WellAttributed(log[k]) && HasId(rows, log[k].bookingId))
    && Chronological(log)
  }

  lemma StoreInvariantUpdate(rows: seq<DateRecord>, log: seq<AuditEntry>, i: nat, n: DateRecord)
    requires StoreInvariant(rows, log) && i < |rows| && SameKey(rows[i], n)
    ensures StoreInvariant(rows[i := n], log)
    ensures HasId(rows[i := n], rows[i].id)
  {
    UpdateKeepsKeys(rows, i, n);
    assert rows[i := n][i].id == rows[i].id;
  }

  class CalendarStore {
    var rows: seq<DateRecord>
    var log: seq<AuditEntry>

    predicate Valid()
      reads this
    {
      StoreInvariant(rows, log)
    }

    /** Empty tables, as `initializeDatabase` creates them. */
    constructor()
      ensures Valid() && rows == [] && log == []
    {
      rows := [];
      log := [];
    }

    /** logAudit: one INSERT INTO audit_log. */
    method LogAudit(bookingId: string, action: AuditAction, oldValues: Option<Snapshot>,
                    newValues: Option<Snapshot>, performedBy: Option<string>, now: Clock)
      requires Valid() && HasId(rows, bookingId) && (performedBy.None? <==> action == BookingCreated)
      requires ClockNotBehind(log, now)
      modifies this
      ensures Valid()
      ensures rows == old(rows)
      ensures log == old(log) + [AuditEntry(bookingId, action, oldValues, newValues, performedBy, now)]
    {
      ChronologicalAppend(log, AuditEntry(bookingId, action, oldValues, newValues, performedBy, now));
      log := log + [AuditEntry(bookingId, action, oldValues, newValues, performedBy, now)];
    }

    /** dropAllTables followed by the CREATE TABLE statements: both tables empty. */
    method DropAll()
      modifies this
      ensures Valid() && rows == [] && log == []
    {
      rows := [];
      log := [];
    }

    /** `INSERT OR IGNORE`: the row is skipped when its id or its date is already taken. */
    method InsertOrIgnore(rec: DateRecord) returns (inserted: bool)
      requires Valid()
      modifies this
      ensures Valid()
      ensures inserted <==> !HasId(old(rows), rec.id) && !HasDate(old(rows), rec.date)
      ensures rows == (if inserted then old(rows) + [rec] else old(rows)) && log == old(log)
    {
      var byId := FindById(rows, rec.id);
      var byDate := FindByDate(rows, rec.date);
      if byId.Some? || byDate.Some? {
        return false;
      }
      forall k | 0 <= k < |log| ensures HasId(rows + [rec], log[k].bookingId) {
        var m :| 0 <= m < |rows| && rows[m].id == log[k].bookingId;
        assert (rows + [rec])[m] == rows[m];
      }
      rows := rows + [rec];
      inserted := true;
    }

    /** Rewrite row i in place (one `UPDATE ... WHERE id = ?`). */
    method WriteRow(i: nat, n: DateRecord)
      requires Valid() && i < |rows| && SameKey(rows[i], n)
      modifies this
      ensures Valid() && HasId(rows, n.id)
      ensures rows == old(rows)[i := n] && log == old(log)
    {
      StoreInvariantUpdate(rows, log, i, n);
      rows := rows[i := n];
    }

    method CreateBooking(cfg: Settings, date: string, req: BookingRequest, now: Clock) returns (res: Result<BookingView>)
      requires Valid() && ClockNotBehind(log, now)
      modifies this
      ensures Valid()
      ensures FindByDate(old(rows), date).None? ==>
        res == Err(DateNotInCalendar) && rows == old(rows) && log == old(log)
      ensures FindByDate(old(rows), date).Some? ==>
        var i := FindByDate(old(rows), date).value;
        var r := old(rows)[i];
        if CreateRefusal(r).Some? then
          res == Err(CreateRefusal(r).value) && rows == old(rows) && log == old(log)
        else
          && rows == old(rows)[i := CreatedRecord(cfg, r, req, now)]
          && log == old(log) + [AuditEntry(r.id, BookingCreated, None, Some(RequestSnapshot(req)), None, now)]
          && res == Ok(Enrich(cfg, rows[i]))
    {
      var found := FindByDate(rows, date);
      if found.None? {
        return Err(DateNotInCalendar);
      }
      var i := found.value;
      var r := rows[i];
      var refusal := CreateRefusal(r);
      if refusal.Some? {
        return Err(refusal.value);
      }
      var n := CreatedRecord(cfg, r, req, now);
      WriteRow(i, n);
      LogAudit(r.id, BookingCreated, None, Some(RequestSnapshot(req)), None, now);
      res := Ok(Enrich(cfg, rows[i]));
    }

    method ApproveBooking(cfg: Settings, id: string, admin: string, now: Clock) returns (res: Result<BookingView>)
      requires Valid() && ClockNotBehind(log, now)
      modifies this
      ensures Valid()
      ensures FindById(old(rows), id).None? ==>
        res == Err(BookingNotFound) && rows == old(rows) && log == old(log)
      ensures FindById(old(rows), id).Some? ==>
        var i := FindById(old(rows), id).value;
        var r := old(rows)[i];
        if r.approvalStatus != Some(ApprovalPending) then
          res == Err(NotPendingApproval) && rows == old(rows) && log == old(log)
        else
          && rows == old(rows)[i := ApprovedRecord(r, admin, now)]
          && log == old(log) + [AuditEntry(id, BookingApproved, Some(RecordSnapshot(r)), Some(ApprovedBySnapshot(admin)), Some(admin), now)]
          && res == Ok(Enrich(cfg, rows[i]))
    {
      var found := FindById(rows, id);
      if found.None? {
        return Err(BookingNotFound);
      }
      var i := found.value;
      var r := rows[i];
      if r.approvalStatus != Some(ApprovalPending) {
        return Err(NotPendingApproval);
      }
      WriteRow(i, ApprovedRecord(r, admin, now));
      LogAudit(id, BookingApproved, Some(RecordSnapshot(r)), Some(ApprovedBySnapshot(admin)), Some(admin), now);
      res := Ok(Enrich(cfg, rows[i]));
    }

    /** rejectBooking checks only that the row exists, whatever its status. */
    method RejectBooking(cfg: Settings, id: string, admin: string, reason: Option<string>, now: Clock) returns (res: Result<BookingView>)
      requires Valid() && ClockNotBehind(log, now)
      modifies this
      ensures Valid()
      ensures FindById(old(rows), id).None? ==>
        res == Err(BookingNotFound) && rows == old(rows) && log == old(log)
      ensures FindById(old(rows), id).Some? ==>
        var i := FindById(old(rows), id).value;
        var r := old(rows)[i];
        && rows == old(rows)[i := RejectedRecord(r, reason, now)]
        && log == old(log) + [AuditEntry(id, BookingRejected, Some(RecordSnapshot(r)),
                                         Some(RejectionSnapshot(admin, reason, r.sponsorEmail, r.sponsorName)), Some(admin), now)]
        && res == Ok(Enrich(cfg, rows[i]))
    {
      var found := FindById(rows, id);
      if found.None? {
        return Err(BookingNotFound);
      }
      var i := found.value;
      var r := rows[i];
      var sponsorEmail := r.sponsorEmail;
      var sponsorName := r.sponsorName;
      WriteRow(i, RejectedRecord(r, reason, now));
      LogAudit(id, BookingRejected, Some(RecordSnapshot(r)),
               Some(RejectionSnapshot(admin, reason, sponsorEmail, sponsorName)), Some(admin), now);
      res := Ok(Enrich(cfg, rows[i]));
    }

    /**
     * adminUpdateBooking: the SET list is built by a loop over the
     * allow-list, then the derived total and balance are appended.
     */
    method AdminUpdateBooking(cfg: Settings, id: string, u: AdminUpdate, admin: string, now: Clock) returns (res: Result<BookingView>)
      requires Valid() && ClockNotBehind(log, now)
      modifies this
      ensures Valid()
      ensures FindById(old(rows), id).None? ==>
        res == Err(BookingNotFound) && rows == old(rows) && log == old(log)
      ensures FindById(old(rows), id).Some? ==>
        var i := FindById(old(rows), id).value;
        var r := old(rows)[i];
        if NothingSupplied(u) then
          res == Ok(Enrich(cfg, r)) && rows == old(rows) && log == old(log)
        else
          && rows == old(rows)[i := AdminUpdatedRecord(r, u, now)]
          && log == old(log) + [AuditEntry(id, BookingUpdatedByAdmin, Some(RecordSnapshot(r)), Some(AdminUpdateSnapshot(u)), Some(admin), now)]
          && res == Ok(Enrich(cfg, rows[i]))
    {
      var found := FindById(rows, id);
      if found.None? {
        return Err(BookingNotFound);
      }
      var i := found.value;
      var r := rows[i];
      var updates := BuildAdminSetList(r, u);
      AdminSetListEmpty(r, u);
      if |updates| == 0 {
        return Ok(Enrich(cfg, r));
      }
      AdminUpdateKeepsRest(r, u, now);
      WriteRow(i, ApplySets(r, updates).(updatedAt := now));
      LogAudit(id, BookingUpdatedByAdmin, Some(RecordSnapshot(r)), Some(AdminUpdateSnapshot(u)), Some(admin), now);
      res := Ok(Enrich(cfg, rows[i]));
    }

    method UpdatePaymentStatus(cfg: Settings, id: string, p: PaymentUpdate, admin: string, now: Clock) returns (res: Result<BookingView>)
      requires Valid() && ClockNotBehind(log, now)
      modifies this
      ensures Valid()
      ensures FindById(old(rows), id).None? ==>
        res == Err(BookingNotFound) && rows == old(rows) && log == old(log)
      ensures FindById(old(rows), id).Some? ==>
        var i := FindById(old(rows), id).value;
        var r := old(rows)[i];
        match ParsePaymentStatus(p.paymentStatus)
        case None => res == Err(InvalidPaymentStatus) && rows == old(rows) && log == old(log)
        case Some(status) =>
          && rows == old(rows)[i := PaymentUpdatedRecord(r, status, p, now)]
          && log == old(log) + [AuditEntry(id, PaymentStatusUpdated, Some(PaymentStatusSnapshot(r.paymentStatus)), Some(PaymentRequestSnapshot(p)), Some(admin), now)]
          && res == Ok(Enrich(cfg, rows[i]))
    {
      var found := FindById(rows, id);
      if found.None? {
        return Err(BookingNotFound);
      }
      var i := found.value;
      var r := rows[i];
      var parsed := ParsePaymentStatus(p.paymentStatus);
      if parsed.None? {
        return Err(InvalidPaymentStatus);
      }
      WriteRow(i, PaymentUpdatedRecord(r, parsed.value, p, now));
      LogAudit(id, PaymentStatusUpdated, Some(PaymentStatusSnapshot(r.paymentStatus)), Some(PaymentRequestSnapshot(p)), Some(admin), now);
      res := Ok(Enrich(cfg, rows[i]));
    }

    method CancelBooking(cfg: Settings, id: string, admin: string, now: Clock) returns (res: Result<BookingView>)
      requires Valid() && ClockNotBehind(log, now)
      modifies this
      ensures Valid()
      ensures FindById(old(rows), id).None? ==>
        res == Err(BookingNotFound) && rows == old(rows) && log == old(log)
      ensures FindById(old(rows), id).Some? ==>
        var i := FindById(old(rows), id).value;
        var r := old(rows)[i];
        && rows == old(rows)[i := CancelledRecord(r, now)]
        && log == old(log) + [AuditEntry(id, BookingCancelled, Some(RecordSnapshot(r)), None, Some(admin), now)]
        && res == Ok(Enrich(cfg, rows[i]))
    {
      var found := FindById(rows, id);
      if found.None? {
        return Err(BookingNotFound);
      }
      var i := found.value;
      var r := rows[i];
      WriteRow(i, CancelledRecord(r, now));
      LogAudit(id, BookingCancelled, Some(RecordSnapshot(r)), None, Some(admin), now);
      res := Ok(Enrich(cfg, rows[i]));
    }

    method SetDateBlockStatus(cfg: Settings, id: string, blocked: bool, admin: string, now: Clock) returns (res: Result<BookingView>)
      requires Valid() && ClockNotBehind(log, now)
      modifies this
      ensures Valid()
      ensures FindById(old(rows), id).None? ==>
        res == Err(DateNotFound) && rows == old(rows) && log == old(log)
      ensures FindById(old(rows), id).Some? ==>
        var i := FindById(old(rows), id).value;
        var r := old(rows)[i];
        if BlockRefusal(r, blocked).Some? then
          res == Err(BlockRefusal(r, blocked).value) && rows == old(rows) && log == old(log)
        else
          && rows == old(rows)[i := BlockStatusRecord(r, blocked, now)]
          && log == old(log) + [AuditEntry(id, if blocked then DateBlocked else DateUnblocked,
                                           Some(BookingStatusSnapshot(r.bookingStatus)),
                                           Some(BookingStatusSnapshot(BlockStatus(blocked))), Some(admin), now)]
          && res == Ok(Enrich(cfg, rows[i]))
    {
      var found := FindById(rows, id);
      if found.None? {
        return Err(DateNotFound);
      }
      var i := found.value;
      var r := rows[i];
      var refusal := BlockRefusal(r, blocked);
      if refusal.Some? {
        return Err(refusal.value);
      }
      var newStatus := BlockStatus(blocked);
      WriteRow(i, BlockStatusRecord(r, blocked, now));
      LogAudit(id, if blocked then DateBlocked else DateUnblocked,
               Some(BookingStatusSnapshot(r.bookingStatus)), Some(BookingStatusSnapshot(newStatus)), Some(admin), now);
      res := Ok(Enrich(cfg, rows[i]));
    }
  }
}
