/**
 * The rows of the `bookings` and `audit_log` tables, the request bodies the
 * booking service receives, and its error conditions.
 */
module Records {
  import opened Common
  import opened Schema
  import opened RamadanDates

  /** An abstract `datetime('now')` value, supplied by the caller of every operation. */
  type Clock = nat

  /** One row of `bookings`; a NULL column is `None`. */
  datatype DateRecord = DateRecord(
    id: string,
    date: string,
    hijriDate: string,
    hijriDay: HijriDay,
    dayOfWeek: string,
    sponsorName: Option<string>,
    sponsorEmail: Option<string>,
    sponsorPhone: Option<string>,
    sponsorOrganization: Option<string>,
    foodVendorName: Option<string>,
    foodVendorContactName: Option<string>,
    foodVendorPhone: Option<string>,
    expectedGuests: Option<int>,
    specialNotes: Option<string>,
    foodAmount: int,
    cleaningAmount: int,
    totalAmount: int,
    paymentMethod: Option<PaymentMethod>,
    checkNumber: Option<string>,
    mohidReference: Option<string>,
    amountPaid: int,
    balance: int,
    paymentStatus: PaymentStatus,
    paymentDate: Option<Clock>,
    bookingStatus: BookingStatus,
    approvalStatus: Option<ApprovalStatus>,
    approvedBy: Option<string>,
    approvedAt: Option<Clock>,
    rejectionReason: Option<string>,
    pricingTier: Option<Tier>,
    adminComment: Option<string>,
    createdAt: Clock,
    updatedAt: Clock)

  /** The public submission body of createBooking; an absent field is `None`. */
  datatype BookingRequest = BookingRequest(
    sponsorName: string,
    sponsorEmail: Option<string>,
    sponsorPhone: Option<string>,
    sponsorOrganization: Option<string>,
    foodVendorName: Option<string>,
    foodVendorContactName: Option<string>,
    foodVendorPhone: Option<string>,
    expectedGuests: Option<int>,
    specialNotes: Option<string>,
    paymentMethod: Option<PaymentMethod>)

  /**
   * The body of adminUpdateBooking, restricted to its allow-listed fields:
   * `Keep` is a field left undefined, `Set(None)` one sent as null.
   */
  datatype AdminUpdate = AdminUpdate(
    sponsorName: Patch<Option<string>>,
    sponsorEmail: Patch<Option<string>>,
    sponsorPhone: Patch<Option<string>>,
    sponsorOrganization: Patch<Option<string>>,
    foodVendorName: Patch<Option<string>>,
    foodVendorContactName: Patch<Option<string>>,
    foodVendorPhone: Patch<Option<string>>,
    expectedGuests: Patch<Option<int>>,
    specialNotes: Patch<Option<string>>,
    foodAmount: Patch<int>,
    cleaningAmount: Patch<int>,
    paymentMethod: Patch<Option<PaymentMethod>>,
    checkNumber: Patch<Option<string>>,
    mohidReference: Patch<Option<string>>,
    amountPaid: Patch<int>,
    paymentStatus: Patch<PaymentStatus>,
    adminComment: Patch<Option<string>>)

  /** The body of updatePaymentStatus; the status arrives as unchecked text. */
  datatype PaymentUpdate = PaymentUpdate(
    paymentStatus: string,
    amountPaid: Option<int>,
    paymentMethod: Option<PaymentMethod>,
    checkNumber: Option<string>,
    mohidReference: Option<string>)

  datatype AuditAction =
    | BookingCreated
    | BookingApproved
    | BookingRejected
    | BookingUpdatedByAdmin
    | PaymentStatusUpdated
    | BookingCancelled
    | DateBlocked
    | DateUnblocked

  function ActionTag(a: AuditAction): string
  {
    match a
    case BookingCreated => "BOOKING_CREATED"
    case BookingApproved => "BOOKING_APPROVED"
    case BookingRejected => "BOOKING_REJECTED"
    case BookingUpdatedByAdmin => "BOOKING_UPDATED_BY_ADMIN"
    case PaymentStatusUpdated => "PAYMENT_STATUS_UPDATED"
    case BookingCancelled => "BOOKING_CANCELLED"
    case DateBlocked => "DATE_BLOCKED"
    case DateUnblocked => "DATE_UNBLOCKED"
  }

  /** The JSON objects stored in `old_values` and `new_values`. */
  datatype Snapshot =
    | RecordSnapshot(record: DateRecord)
    | RequestSnapshot(request: BookingRequest)
    | ApprovedBySnapshot(approvedBy: string)
    | RejectionSnapshot(rejectedBy: string, reason: Option<string>, sponsorEmail: Option<string>, sponsorName: Option<string>)
    | AdminUpdateSnapshot(update: AdminUpdate)
    | PaymentStatusSnapshot(paymentStatus: PaymentStatus)
    | PaymentRequestSnapshot(payment: PaymentUpdate)
    | BookingStatusSnapshot(bookingStatus: BookingStatus)

  /** One row of `audit_log` (its ip_address and user_agent are always NULL). */
  datatype AuditEntry = AuditEntry(
    bookingId: string,
    action: AuditAction,
    oldValues: Option<Snapshot>,
    newValues: Option<Snapshot>,
    performedBy: Option<string>,
    createdAt: Clock)

  /** Entries written with nondecreasing `created_at`, as a clock that never runs backwards writes them. */
  predicate Chronological(log: seq<AuditEntry>)
  {
    forall i, j :: 0 <= i < j < |log| ==> log[i].createdAt <= log[j].createdAt
  }

  /** `now` is no earlier than the newest entry written so far. */
  predicate ClockNotBehind(log: seq<AuditEntry>, now: Clock)
  {
    log == [] || log[|log| - 1].createdAt <= now
  }

  /** Writing an entry stamped with a clock that has not run backwards keeps the log chronological. */
  lemma ChronologicalAppend(log: seq<AuditEntry>, e: AuditEntry)
    requires Chronological(log) && ClockNotBehind(log, e.createdAt)
    ensures Chronological(log + [e])
    ensures forall k :: 0 <= k < |log| ==> log[k].createdAt <= e.createdAt
  {
    var l := log + [e];
    forall i, j | 0 <= i < j < |l| ensures l[i].createdAt <= l[j].createdAt {
      if j == |log| && i < |log| - 1 {
        assert log[i].createdAt <= log[|log| - 1].createdAt;
      }
    }
  }

  datatype ServiceError =
    | DateNotInCalendar
    | DateIsBlocked
    | DateIsHmccSponsored
    | AlreadyBookedOrPending
    | BookingNotFound
    | NotPendingApproval
    | InvalidPaymentStatus
    | DateNotFound
    | CannotBlockBooked
    | CannotModifyHmccDate

  function ErrorMessage(e: ServiceError): string
  {
    match e
    case DateNotInCalendar => "Date not found in Ramadan calendar"
    case DateIsBlocked => "This date is blocked and cannot be booked"
    case DateIsHmccSponsored => "This date is sponsored by HMCC and cannot be booked"
    case AlreadyBookedOrPending => "This date is already booked or pending approval"
    case BookingNotFound => "Booking not found"
    case NotPendingApproval => "Booking is not pending approval"
    case InvalidPaymentStatus => "Invalid payment status"
    case DateNotFound => "Date not found"
    case CannotBlockBooked => "Cannot block a date that is already booked"
    case CannotModifyHmccDate => "Cannot modify HMCC sponsored date"
  }

  datatype Result<+T> = Ok(value: T) | Err(error: ServiceError)

  // ---------------------------------------------------------------------------
  // Lookups and the table's key constraints

  /** `SELECT ... WHERE date = ?` under the UNIQUE constraint on `date`. */
  function FindByDate(rows: seq<DateRecord>, date: string): (r: Option<nat>)
    ensures r.Some? ==> r.value < |rows| && rows[r.value].date == date
    ensures r.None? ==> forall k :: 0 <= k < |rows| ==> rows[k].date != date
  {
    FindFrom(rows, DateKey, date, 0)
  }

  /** `SELECT ... WHERE id = ?` under the PRIMARY KEY on `id`. */
  function FindById(rows: seq<DateRecord>, id: string): (r: Option<nat>)
    ensures r.Some? ==> r.value < |rows| && rows[r.value].id == id
    ensures r.None? ==> forall k :: 0 <= k < |rows| ==> rows[k].id != id
  {
    FindFrom(rows, IdKey, id, 0)
  }

  /** The two looked-up columns. */
  datatype Key = IdKey | DateKey

  function KeyOf(r: DateRecord, key: Key): string
  {
    match key
    case IdKey => r.id
    case DateKey => r.date
  }

  /** The first row at or after `from` whose key column holds `v`. */
  function FindFrom(rows: seq<DateRecord>, key: Key, v: string, from: nat): (r: Option<nat>)
    ensures r.Some? ==> from <= r.value < |rows| && KeyOf(rows[r.value], key) == v
    ensures r.Some? ==> forall k :: from <= k < r.value ==> KeyOf(rows[k], key) != v
    ensures r.None? ==> forall k :: from <= k < |rows| ==> KeyOf(rows[k], key) != v
    decreases |rows| - from
  {
    if from >= |rows| then None
    else if KeyOf(rows[from], key) == v then Some(from)
    else FindFrom(rows, key, v, from + 1)
  }

  predicate UniqueKeys(rows: seq<DateRecord>)
  {
    forall i, j :: 0 <= i < j < |rows| ==> rows[i].id != rows[j].id && rows[i].date != rows[j].date
  }

  predicate HasId(rows: seq<DateRecord>, id: string)
  {
    exists k :: 0 <= k < |rows| && rows[k].id == id
  }

  predicate HasDate(rows: seq<DateRecord>, date: string)
  {
    exists k :: 0 <= k < |rows| && rows[k].date == date
  }

  /** Two rows share their primary key and their unique date. */
  predicate SameKey(a: DateRecord, b: DateRecord)
  {
    a.id == b.id && a.date == b.date
  }

  /** Rewriting one row without touching its keys keeps both constraints and every id. */
  lemma UpdateKeepsKeys(rows: seq<DateRecord>, i: nat, n: DateRecord)
    requires i < |rows| && SameKey(rows[i], n)
    ensures UniqueKeys(rows) ==> UniqueKeys(rows[i := n])
    ensures forall id :: HasId(rows, id) <==> HasId(rows[i := n], id)
  {
    forall id | HasId(rows, id)
      ensures HasId(rows[i := n], id)
    {
      var k :| 0 <= k < |rows| && rows[k].id == id;
      assert rows[i := n][k].id == id;
    }
    forall id | HasId(rows[i := n], id)
      ensures HasId(rows, id)
    {
      var k :| 0 <= k < |rows| && rows[i := n][k].id == id;
      assert rows[k].id == id;
    }
  }

  /** Under the key constraints a lookup by date finds the only row with that date. */
  lemma FindByDateUnique(rows: seq<DateRecord>, date: string, k: nat)
    requires UniqueKeys(rows) && k < |rows| && rows[k].date == date
    ensures FindByDate(rows, date) == Some(k)
  {
  }

  lemma FindByIdUnique(rows: seq<DateRecord>, id: string, k: nat)
    requires UniqueKeys(rows) && k < |rows| && rows[k].id == id
    ensures FindById(rows, id) == Some(k)
  {
  }
}
