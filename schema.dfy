/**
 * The enumerated columns of the `bookings` table (src/database/connection.js)
 * with the text each value is stored as. Each enumeration holds the values the
 * service and the request validators write; the CHECK constraints do not bound
 * `payment_method`, `approval_status` or `pricing_tier`, because their lists
 * contain NULL (see SqlIn below).
 */
module Schema {
  import opened Common

  datatype BookingStatus = Available | PendingApproval | Booked | Blocked | HmccSponsored | Eid

  /** `approval_status`; the column's NULL is `None` of an `Option<ApprovalStatus>`. */
  datatype ApprovalStatus = ApprovalPending | Approved | Rejected

  datatype PaymentStatus = PaymentPending | Partial | Completed | Cancelled | Refunded

  /** `payment_method`: the five methods the request validators accept; the column's NULL is `None`. */
  datatype PaymentMethod = Check | CreditCard | Cash | Zelle | PayPal

  datatype Tier = Weekday | Weekend | Last10Nights

  function BookingStatusName(s: BookingStatus): string
  {
    match s
    case Available => "available"
    case PendingApproval => "pending_approval"
    case Booked => "booked"
    case Blocked => "blocked"
    case HmccSponsored => "hmcc_sponsored"
    case Eid => "eid"
  }

  function ApprovalStatusName(s: ApprovalStatus): string
  {
    match s
    case ApprovalPending => "pending"
    case Approved => "approved"
    case Rejected => "rejected"
  }

  function PaymentStatusName(s: PaymentStatus): string
  {
    match s
    case PaymentPending => "pending"
    case Partial => "partial"
    case Completed => "completed"
    case Cancelled => "cancelled"
    case Refunded => "refunded"
  }

  function PaymentMethodName(m: PaymentMethod): string
  {
    match m
    case Check => "check"
    case CreditCard => "credit_card"
    case Cash => "cash"
    case Zelle => "zelle"
    case PayPal => "paypal"
  }

  /** The tag stored in `pricing_tier` and returned by getPricing. */
  function TierName(t: Tier): string
  {
    match t
    case Weekday => "weekday"
    case Weekend => "weekend"
    case Last10Nights => "last10nights"
  }

  /**
   * The five-value membership test of updatePaymentStatus: a status text is
   * accepted exactly when it is the stored name of a payment status.
   */
  function ParsePaymentStatus(s: string): (r: Option<PaymentStatus>)
    ensures r.Some? ==> PaymentStatusName(r.value) == s
    ensures r.None? ==> forall p: PaymentStatus :: PaymentStatusName(p) != s
  {
    if s == "pending" then Some(PaymentPending)
    else if s == "partial" then Some(Partial)
    else if s == "completed" then Some(Completed)
    else if s == "cancelled" then Some(Cancelled)
    else if s == "refunded" then Some(Refunded)
    else None
  }

  lemma ParsePaymentStatusName(p: PaymentStatus)
    ensures ParsePaymentStatus(PaymentStatusName(p)) == Some(p)
  {
  }

  /** SQL's three truth values; a CHECK constraint rejects a row only when its condition is FALSE. */
  datatype SqlBool = SqlTrue | SqlFalse | SqlNull

  /**
   * `x IN (v1, ..., vn)` under SQL's three-valued logic: TRUE when x equals a
   * listed value, otherwise NULL when x or some listed value is NULL, and
   * FALSE only when x and every listed value are non-NULL and none matches.
   */
  function SqlIn(x: Option<string>, list: seq<Option<string>>): (b: SqlBool)
    ensures b == SqlTrue <==> x.Some? && x in list
    ensures b == SqlFalse <==> |list| == 0 || (x.Some? && x !in list && None !in list)
  {
    if |list| == 0 then SqlFalse
    else if x.None? then SqlNull
    else if x in list then SqlTrue
    else if None in list then SqlNull
    else SqlFalse
  }

  predicate CheckAdmits(condition: SqlBool)
  {
    condition != SqlFalse
  }

  /** A CHECK list holding NULL admits every value, so it constrains nothing. */
  lemma NullInListAdmitsAll(x: Option<string>, list: seq<Option<string>>)
    requires None in list
    ensures CheckAdmits(SqlIn(x, list))
  {
  }

  /** Without NULL in the list, a non-NULL text is admitted exactly when it is listed. */
  lemma ListWithoutNullRestricts(x: string, list: seq<Option<string>>)
    requires None !in list
    ensures CheckAdmits(SqlIn(Some(x), list)) <==> Some(x) in list
  {
  }

  /** The `payment_method` CHECK: any text at all, "credit_card" and "paypal" among them, passes. */
  lemma PaymentMethodCheckAdmitsAnyText(x: string)
    ensures CheckAdmits(SqlIn(Some(x), [Some("check"), Some("cash"), Some("zelle"), None]))
  {
    NullInListAdmitsAll(Some(x), [Some("check"), Some("cash"), Some("zelle"), None]);
  }

  /** The `approval_status` and `pricing_tier` CHECKs list NULL too, so they admit any text as well. */
  lemma ApprovalAndTierChecksAdmitAnyText(x: string)
    ensures CheckAdmits(SqlIn(Some(x), [Some("pending"), Some("approved"), Some("rejected"), None]))
    ensures CheckAdmits(SqlIn(Some(x), [Some("weekday"), Some("weekend"), Some("last10nights"), None]))
  {
    NullInListAdmitsAll(Some(x), [Some("pending"), Some("approved"), Some("rejected"), None]);
    NullInListAdmitsAll(Some(x), [Some("weekday"), Some("weekend"), Some("last10nights"), None]);
  }

  /** The `payment_status` CHECK, without NULL, admits exactly the five status names. */
  lemma PaymentStatusCheckRestricts(x: string)
    ensures CheckAdmits(SqlIn(Some(x), [Some("pending"), Some("partial"), Some("completed"), Some("cancelled"), Some("refunded")]))
            <==> ParsePaymentStatus(x).Some?
  {
    var list := [Some("pending"), Some("partial"), Some("completed"), Some("cancelled"), Some("refunded")];
    ListWithoutNullRestricts(x, list);
  }
}
