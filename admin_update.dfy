/**
 * adminUpdateBooking (src/services/bookingService.js) builds an SQL
 * `UPDATE ... SET col = ?, ...` from the allow-listed fields present in the
 * request, then adds `total_amount` and `balance` when amounts were sent.
 * This module gives the columns it can write, the SET list as a value, and
 * what applying that list does to a row.
 */
module AdminUpdates {
  import opened Common
  import opened Schema
  import opened Records

  datatype Column =
    | SponsorNameCol
    | SponsorEmailCol
    | SponsorPhoneCol
    | SponsorOrganizationCol
    | FoodVendorNameCol
    | FoodVendorContactNameCol
    | FoodVendorPhoneCol
    | ExpectedGuestsCol
    | SpecialNotesCol
    | FoodAmountCol
    | CleaningAmountCol
    | PaymentMethodCol
    | CheckNumberCol
    | MohidReferenceCol
    | AmountPaidCol
    | PaymentStatusCol
    | AdminCommentCol
    | TotalAmountCol
    | BalanceCol

  /** A bound SQL parameter, by the column type it is written to. */
  datatype Value =
    | Text(text: Option<string>)
    | Count(count: Option<int>)
    | Money(amount: int)
    | Method(payMethod: Option<PaymentMethod>)
    | Status(status: PaymentStatus)

  /** One `col = ?` clause with its bound value. */
  datatype Assignment = Assign(column: Column, value: Value)

  /** The request fields an administrator may change, in the order the SET list is built. */
  const AllowedFields: seq<Column> := [
    SponsorNameCol, SponsorEmailCol, SponsorPhoneCol, SponsorOrganizationCol,
    FoodVendorNameCol, FoodVendorContactNameCol, FoodVendorPhoneCol,
    ExpectedGuestsCol, SpecialNotesCol, FoodAmountCol, CleaningAmountCol,
    PaymentMethodCol, CheckNumberCol, MohidReferenceCol, AmountPaidCol,
    PaymentStatusCol, AdminCommentCol]

  predicate Fits(c: Column, v: Value)
  {
    match c
    case ExpectedGuestsCol => v.Count?
    case FoodAmountCol | CleaningAmountCol | AmountPaidCol | TotalAmountCol | BalanceCol => v.Money?
    case PaymentMethodCol => v.Method?
    case PaymentStatusCol => v.Status?
    case _ => v.Text?
  }

  predicate AllFit(sets: seq<Assignment>)
  {
    forall k :: 0 <= k < |sets| ==> Fits(sets[k].column, sets[k].value)
  }

  /** The value a row holds in a column. */
  function Get(r: DateRecord, c: Column): (v: Value)
    ensures Fits(c, v)
  {
    match c
    case SponsorNameCol => Text(r.sponsorName)
    case SponsorEmailCol => Text(r.sponsorEmail)
    case SponsorPhoneCol => Text(r.sponsorPhone)
    case SponsorOrganizationCol => Text(r.sponsorOrganization)
    case FoodVendorNameCol => Text(r.foodVendorName)
    case FoodVendorContactNameCol => Text(r.foodVendorContactName)
    case FoodVendorPhoneCol => Text(r.foodVendorPhone)
    case ExpectedGuestsCol => Count(r.expectedGuests)
    case SpecialNotesCol => Text(r.specialNotes)
    case FoodAmountCol => Money(r.foodAmount)
    case CleaningAmountCol => Money(r.cleaningAmount)
    case PaymentMethodCol => Method(r.paymentMethod)
    case CheckNumberCol => Text(r.checkNumber)
    case MohidReferenceCol => Text(r.mohidReference)
    case AmountPaidCol => Money(r.amountPaid)
    case PaymentStatusCol => Status(r.paymentStatus)
    case AdminCommentCol => Text(r.adminComment)
    case TotalAmountCol => Money(r.totalAmount)
    case BalanceCol => Money(r.balance)
  }

  /** One SET clause applied to a row. */
  function Put(r: DateRecord, c: Column, v: Value): DateRecord
    requires Fits(c, v)
  {
    match c
    case SponsorNameCol => r.(sponsorName := v.text)
    case SponsorEmailCol => r.(sponsorEmail := v.text)
    case SponsorPhoneCol => r.(sponsorPhone := v.text)
    case SponsorOrganizationCol => r.(sponsorOrganization := v.text)
    case FoodVendorNameCol => r.(foodVendorName := v.text)
    case FoodVendorContactNameCol => r.(foodVendorContactName := v.text)
    case FoodVendorPhoneCol => r.(foodVendorPhone := v.text)
    case ExpectedGuestsCol => r.(expectedGuests := v.count)
    case SpecialNotesCol => r.(specialNotes := v.text)
    case FoodAmountCol => r.(foodAmount := v.amount)
    case CleaningAmountCol => r.(cleaningAmount := v.amount)
    case PaymentMethodCol => r.(paymentMethod := v.payMethod)
    case CheckNumberCol => r.(checkNumber := v.text)
    case MohidReferenceCol => r.(mohidReference := v.text)
    case AmountPaidCol => r.(amountPaid := v.amount)
    case PaymentStatusCol => r.(paymentStatus := v.status)
    case AdminCommentCol => r.(adminComment := v.text)
    case TotalAmountCol => r.(totalAmount := v.amount)
    case BalanceCol => r.(balance := v.amount)
  }

  /** The row with every writable column blanked: what a SET list cannot change. */
  function Frame(r: DateRecord): DateRecord
  {
    r.(sponsorName := None, sponsorEmail := None, sponsorPhone := None, sponsorOrganization := None,
       foodVendorName := None, foodVendorContactName := None, foodVendorPhone := None,
       expectedGuests := None, specialNotes := None, foodAmount := 0, cleaningAmount := 0,
       paymentMethod := None, checkNumber := None, mohidReference := None, amountPaid := 0,
       paymentStatus := PaymentPending, adminComment := None, totalAmount := 0, balance := 0)
  }

  lemma GetPut(r: DateRecord, c: Column, v: Value, d: Column)
    requires Fits(c, v)
    ensures Get(Put(r, c, v), d) == if d == c then v else Get(r, d)
  {
  }

  lemma FramePut(r: DateRecord, c: Column, v: Value)
    requires Fits(c, v)
    ensures Frame(Put(r, c, v)) == Frame(r)
  {
  }

  // ---------------------------------------------------------------------------
  // SET lists

  /** The SQL UPDATE of a SET list, clause by clause. */
  function ApplySets(r: DateRecord, sets: seq<Assignment>): DateRecord
    requires AllFit(sets)
    decreases |sets|
  {
    if sets == [] then r
    else
      var last := sets[|sets| - 1];
      Put(ApplySets(r, sets[..|sets| - 1]), last.column, last.value)
  }

  /** The value the last clause for `c` in a SET list binds, or `d` when there is none. */
  function LastAssigned(sets: seq<Assignment>, c: Column, d: Value): Value
    decreases |sets|
  {
    if sets == [] then d
    else if sets[|sets| - 1].column == c then sets[|sets| - 1].value
    else LastAssigned(sets[..|sets| - 1], c, d)
  }

  /** After a SET list every column holds its last assigned value, and nothing else moves. */
  lemma {:induction false} ApplySetsEffect(r: DateRecord, sets: seq<Assignment>, c: Column)
    requires AllFit(sets)
    ensures Get(ApplySets(r, sets), c) == LastAssigned(sets, c, Get(r, c))
    ensures Frame(ApplySets(r, sets)) == Frame(r)
    decreases |sets|
  {
    if sets != [] {
      var init := sets[..|sets| - 1];
      var last := sets[|sets| - 1];
      assert AllFit(init) by {
        forall k | 0 <= k < |init| ensures Fits(init[k].column, init[k].value) {
          assert init[k] == sets[k];
        }
      }
      ApplySetsEffect(r, init, c);
      GetPut(ApplySets(r, init), last.column, last.value, c);
      FramePut(ApplySets(r, init), last.column, last.value);
    }
  }

  lemma {:induction false} LastAssignedAppend(a: seq<Assignment>, b: seq<Assignment>, c: Column, d: Value)
    ensures LastAssigned(a + b, c, d) == LastAssigned(b, c, LastAssigned(a, c, d))
    decreases |b|
  {
    if b == [] {
      assert a + b == a;
    } else {
      assert (a + b)[..|a + b| - 1] == a + b[..|b| - 1];
      assert (a + b)[|a + b| - 1] == b[|b| - 1];
      LastAssignedAppend(a, b[..|b| - 1], c, d);
    }
  }

  lemma AllFitAppend(a: seq<Assignment>, b: seq<Assignment>)
    requires AllFit(a) && AllFit(b)
    ensures AllFit(a + b)
  {
    forall k | 0 <= k < |a + b|
      ensures Fits((a + b)[k].column, (a + b)[k].value)
    {
      if k >= |a| {
        assert (a + b)[k] == b[k - |a|];
      } else {
        assert (a + b)[k] == a[k];
      }
    }
  }

  // ---------------------------------------------------------------------------
  // The SET list of adminUpdateBooking

  function TextPatch(p: Patch<Option<string>>): Option<Value>
  {
    match p
    case Keep => None
    case Set(v) => Some(Text(v))
  }

  function MoneyPatch(p: Patch<int>): Option<Value>
  {
    match p
    case Keep => None
    case Set(v) => Some(Money(v))
  }

  /** `bookingData[field] !== undefined`, with the value bound for that field. */
  function Supplied(u: AdminUpdate, c: Column): (s: Option<Value>)
    ensures s.Some? ==> Fits(c, s.value)
  {
    match c
    case SponsorNameCol => TextPatch(u.sponsorName)
    case SponsorEmailCol => TextPatch(u.sponsorEmail)
    case SponsorPhoneCol => TextPatch(u.sponsorPhone)
    case SponsorOrganizationCol => TextPatch(u.sponsorOrganization)
    case FoodVendorNameCol => TextPatch(u.foodVendorName)
    case FoodVendorContactNameCol => TextPatch(u.foodVendorContactName)
    case FoodVendorPhoneCol => TextPatch(u.foodVendorPhone)
    case ExpectedGuestsCol => (match u.expectedGuests case Keep => None case Set(v) => Some(Count(v)))
    case SpecialNotesCol => TextPatch(u.specialNotes)
    case FoodAmountCol => MoneyPatch(u.foodAmount)
    case CleaningAmountCol => MoneyPatch(u.cleaningAmount)
    case PaymentMethodCol => (match u.paymentMethod case Keep => None case Set(v) => Some(Method(v)))
    case CheckNumberCol => TextPatch(u.checkNumber)
    case MohidReferenceCol => TextPatch(u.mohidReference)
    case AmountPaidCol => MoneyPatch(u.amountPaid)
    case PaymentStatusCol => (match u.paymentStatus case Keep => None case Set(v) => Some(Status(v)))
    case AdminCommentCol => TextPatch(u.adminComment)
    case TotalAmountCol => None
    case BalanceCol => None
  }

  /** The clauses the allow-list loop pushes for a prefix of the allow-list. */
  function SetClauses(u: AdminUpdate, fields: seq<Column>): (sets: seq<Assignment>)
    ensures AllFit(sets)
    ensures |sets| <= |fields|
    decreases |fields|
  {
    if fields == [] then []
    else
      var init := SetClauses(u, fields[..|fields| - 1]);
      var f := fields[|fields| - 1];
      match Supplied(u, f)
      case None => init
      case Some(v) => AllFitAppend(init, [Assign(f, v)]); init + [Assign(f, v)]
  }

  /** The `total_amount` clause: food plus cleaning, each as sent or as stored. */
  function TotalClause(r: DateRecord, u: AdminUpdate): seq<Assignment>
  {
    if u.foodAmount.Set? || u.cleaningAmount.Set?
    then [Assign(TotalAmountCol, Money(PatchOr(u.foodAmount, r.foodAmount) + PatchOr(u.cleaningAmount, r.cleaningAmount)))]
    else []
  }

  /** The `balance` clause: the stored total (before this update) less the amount paid. */
  function BalanceClause(r: DateRecord, u: AdminUpdate): seq<Assignment>
  {
    if u.amountPaid.Set? then [Assign(BalanceCol, Money(r.totalAmount - u.amountPaid.value))] else []
  }

  function AdminSetList(r: DateRecord, u: AdminUpdate): (sets: seq<Assignment>)
    ensures AllFit(sets)
  {
    AllFitAppend(SetClauses(u, AllowedFields), TotalClause(r, u));
    AllFitAppend(SetClauses(u, AllowedFields) + TotalClause(r, u), BalanceClause(r, u));
    SetClauses(u, AllowedFields) + TotalClause(r, u) + BalanceClause(r, u)
  }

  /**
   * The loop of adminUpdateBooking that collects one SET clause per supplied
   * allowed field, followed by the recomputed total and balance.
   */
  method BuildAdminSetList(r: DateRecord, u: AdminUpdate) returns (updates: seq<Assignment>)
    ensures updates == AdminSetList(r, u)
  {
    updates := [];
    for k := 0 to |AllowedFields|
      invariant updates == SetClauses(u, AllowedFields[..k])
    {
      var field := AllowedFields[k];
      assert AllowedFields[..k + 1] == AllowedFields[..k] + [field];
      var v := Supplied(u, field);
      if v.Some? {
        updates := updates + [Assign(field, v.value)];
      }
    }
    assert AllowedFields[..|AllowedFields|] == AllowedFields;
    if u.foodAmount.Set? || u.cleaningAmount.Set? {
      var foodAmt := if u.foodAmount.Set? then u.foodAmount.value else r.foodAmount;
      var cleaningAmt := if u.cleaningAmount.Set? then u.cleaningAmount.value else r.cleaningAmount;
      updates := updates + [Assign(TotalAmountCol, Money(foodAmt + cleaningAmt))];
    }
    if u.amountPaid.Set? {
      updates := updates + [Assign(BalanceCol, Money(r.totalAmount - u.amountPaid.value))];
    }
  }

  /** The row after adminUpdateBooking has run its UPDATE. */
  function AdminUpdatedRecord(r: DateRecord, u: AdminUpdate, now: Clock): DateRecord
  {
    ApplySets(r, AdminSetList(r, u)).(updatedAt := now)
  }

  /** Every allow-listed field is absent from the request. */
  predicate NothingSupplied(u: AdminUpdate)
  {
    && u.sponsorName.Keep? && u.sponsorEmail.Keep? && u.sponsorPhone.Keep? && u.sponsorOrganization.Keep?
    && u.foodVendorName.Keep? && u.foodVendorContactName.Keep? && u.foodVendorPhone.Keep?
    && u.expectedGuests.Keep? && u.specialNotes.Keep? && u.foodAmount.Keep? && u.cleaningAmount.Keep?
    && u.paymentMethod.Keep? && u.checkNumber.Keep? && u.mohidReference.Keep? && u.amountPaid.Keep?
    && u.paymentStatus.Keep? && u.adminComment.Keep?
  }

  lemma {:induction false} SetClausesLast(u: AdminUpdate, fields: seq<Column>, c: Column, d: Value)
    ensures LastAssigned(SetClauses(u, fields), c, d) == if c in fields && Supplied(u, c).Some? then Supplied(u, c).value else d
    decreases |fields|
  {
    if fields != [] {
      var init := fields[..|fields| - 1];
      var f := fields[|fields| - 1];
      assert fields == init + [f];
      SetClausesLast(u, init, c, d);
      if Supplied(u, f).Some? {
        var sets := SetClauses(u, init) + [Assign(f, Supplied(u, f).value)];
        assert sets[..|sets| - 1] == SetClauses(u, init);
      }
    }
  }

  lemma {:induction false} SetClausesEmpty(u: AdminUpdate, fields: seq<Column>)
    ensures SetClauses(u, fields) == [] <==> forall c :: c in fields ==> Supplied(u, c).None?
    decreases |fields|
  {
    if fields != [] {
      var init := fields[..|fields| - 1];
      assert fields == init + [fields[|fields| - 1]];
      SetClausesEmpty(u, init);
    }
  }

  lemma AllowedFieldsMembers()
    ensures forall c :: c in AllowedFields <==> c != TotalAmountCol && c != BalanceCol
  {
  }

  /** No allow-listed field present means no column at all is supplied. */
  lemma NothingSuppliedNoColumn(u: AdminUpdate)
    ensures NothingSupplied(u) <==> forall c: Column :: Supplied(u, c).None?
  {
    if forall c: Column :: Supplied(u, c).None? {
      assert Supplied(u, SponsorNameCol).None? && Supplied(u, SponsorEmailCol).None?;
      assert Supplied(u, SponsorPhoneCol).None? && Supplied(u, SponsorOrganizationCol).None?;
      assert Supplied(u, FoodVendorNameCol).None? && Supplied(u, FoodVendorContactNameCol).None?;
      assert Supplied(u, FoodVendorPhoneCol).None? && Supplied(u, ExpectedGuestsCol).None?;
      assert Supplied(u, SpecialNotesCol).None? && Supplied(u, FoodAmountCol).None?;
      assert Supplied(u, CleaningAmountCol).None? && Supplied(u, PaymentMethodCol).None?;
      assert Supplied(u, CheckNumberCol).None? && Supplied(u, MohidReferenceCol).None?;
      assert Supplied(u, AmountPaidCol).None? && Supplied(u, PaymentStatusCol).None?;
      assert Supplied(u, AdminCommentCol).None?;
    }
  }

  /** The early `updates.length === 0` return happens exactly when no allow-listed field is sent. */
  lemma AdminSetListEmpty(r: DateRecord, u: AdminUpdate)
    ensures AdminSetList(r, u) == [] <==> NothingSupplied(u)
  {
    var a := SetClauses(u, AllowedFields);
    var t := TotalClause(r, u);
    var b := BalanceClause(r, u);
    SetClausesEmpty(u, AllowedFields);
    AllowedFieldsMembers();
    NothingSuppliedNoColumn(u);
    assert a == [] ==> Supplied(u, FoodAmountCol).None? && Supplied(u, CleaningAmountCol).None?
                       && Supplied(u, AmountPaidCol).None?;
    assert AdminSetList(r, u) == a + t + b;
    assert |a + t + b| == |a| + |t| + |b|;
  }

  /** The value a column ends with, as a function of the request and the old row alone. */
  function Written(r: DateRecord, u: AdminUpdate, c: Column): Value
  {
    if c == TotalAmountCol then (if TotalClause(r, u) == [] then Get(r, c) else TotalClause(r, u)[0].value)
    else if c == BalanceCol then (if BalanceClause(r, u) == [] then Get(r, c) else BalanceClause(r, u)[0].value)
    else if Supplied(u, c).Some? then Supplied(u, c).value
    else Get(r, c)
  }

  lemma AdminSetListLast(r: DateRecord, u: AdminUpdate, c: Column)
    ensures LastAssigned(AdminSetList(r, u), c, Get(r, c)) == Written(r, u, c)
  {
    var a := SetClauses(u, AllowedFields);
    var t := TotalClause(r, u);
    var b := BalanceClause(r, u);
    LastAssignedAppend(a + t, b, c, Get(r, c));
    LastAssignedAppend(a, t, c, Get(r, c));
    SetClausesLast(u, AllowedFields, c, Get(r, c));
    AllowedFieldsMembers();
    var x := LastAssigned(a, c, Get(r, c));
    LastAssignedShort(t, c, x);
    LastAssignedShort(b, c, LastAssigned(t, c, x));
    if c == TotalAmountCol || c == BalanceCol {
      assert x == Get(r, c);
    } else {
      assert c in AllowedFields;
    }
  }

  /** The last assignment in a list of at most one clause. */
  lemma LastAssignedShort(s: seq<Assignment>, c: Column, d: Value)
    requires |s| <= 1
    ensures LastAssigned(s, c, d) == if s != [] && s[0].column == c then s[0].value else d
  {
    if s != [] {
      assert s[..0] == [];
    }
  }

  /** Each column of the updated row holds what `Written` says, and no other column moves but updated_at. */
  lemma AdminUpdateColumn(r: DateRecord, u: AdminUpdate, now: Clock, c: Column)
    ensures Get(AdminUpdatedRecord(r, u, now), c) == Written(r, u, c)
    ensures Frame(AdminUpdatedRecord(r, u, now)) == Frame(r).(updatedAt := now)
  {
    var a := ApplySets(r, AdminSetList(r, u));
    ApplySetsEffect(r, AdminSetList(r, u), c);
    AdminSetListLast(r, u, c);
    assert Get(a.(updatedAt := now), c) == Get(a, c);
  }

  /** The sponsor and vendor fields of adminUpdateBooking: each as sent, or as stored when absent. */
  lemma AdminUpdateContactFields(r: DateRecord, u: AdminUpdate, now: Clock)
    ensures var n := AdminUpdatedRecord(r, u, now);
      && n.sponsorName == PatchOr(u.sponsorName, r.sponsorName)
      && n.sponsorEmail == PatchOr(u.sponsorEmail, r.sponsorEmail)
      && n.sponsorPhone == PatchOr(u.sponsorPhone, r.sponsorPhone)
      && n.sponsorOrganization == PatchOr(u.sponsorOrganization, r.sponsorOrganization)
      && n.foodVendorName == PatchOr(u.foodVendorName, r.foodVendorName)
      && n.foodVendorContactName == PatchOr(u.foodVendorContactName, r.foodVendorContactName)
      && n.foodVendorPhone == PatchOr(u.foodVendorPhone, r.foodVendorPhone)
      && n.expectedGuests == PatchOr(u.expectedGuests, r.expectedGuests)
      && n.specialNotes == PatchOr(u.specialNotes, r.specialNotes)
  {
    AdminUpdateColumn(r, u, now, SponsorNameCol);
    AdminUpdateColumn(r, u, now, SponsorEmailCol);
    AdminUpdateColumn(r, u, now, SponsorPhoneCol);
    AdminUpdateColumn(r, u, now, SponsorOrganizationCol);
    AdminUpdateColumn(r, u, now, FoodVendorNameCol);
    AdminUpdateColumn(r, u, now, FoodVendorContactNameCol);
    AdminUpdateColumn(r, u, now, FoodVendorPhoneCol);
    AdminUpdateColumn(r, u, now, ExpectedGuestsCol);
    AdminUpdateColumn(r, u, now, SpecialNotesCol);
  }

  /** The payment fields of adminUpdateBooking: each as sent, or as stored when absent. */
  lemma AdminUpdatePaymentFields(r: DateRecord, u: AdminUpdate, now: Clock)
    ensures var n := AdminUpdatedRecord(r, u, now);
      && n.foodAmount == PatchOr(u.foodAmount, r.foodAmount)
      && n.cleaningAmount == PatchOr(u.cleaningAmount, r.cleaningAmount)
      && n.paymentMethod == PatchOr(u.paymentMethod, r.paymentMethod)
      && n.checkNumber == PatchOr(u.checkNumber, r.checkNumber)
      && n.mohidReference == PatchOr(u.mohidReference, r.mohidReference)
      && n.amountPaid == PatchOr(u.amountPaid, r.amountPaid)
      && n.paymentStatus == PatchOr(u.paymentStatus, r.paymentStatus)
      && n.adminComment == PatchOr(u.adminComment, r.adminComment)
  {
    AdminUpdateColumn(r, u, now, FoodAmountCol);
    AdminUpdateColumn(r, u, now, CleaningAmountCol);
    AdminUpdateColumn(r, u, now, PaymentMethodCol);
    AdminUpdateColumn(r, u, now, CheckNumberCol);
    AdminUpdateColumn(r, u, now, MohidReferenceCol);
    AdminUpdateColumn(r, u, now, AmountPaidCol);
    AdminUpdateColumn(r, u, now, PaymentStatusCol);
    AdminUpdateColumn(r, u, now, AdminCommentCol);
  }

  /**
   * The derived amounts: the total is recomputed from the new food and
   * cleaning amounts when either is sent; the balance is recomputed against
   * the total stored BEFORE the update when amount_paid is sent.
   */
  lemma AdminUpdateDerivedAmounts(r: DateRecord, u: AdminUpdate, now: Clock)
    ensures var n := AdminUpdatedRecord(r, u, now);
      n.totalAmount == if u.foodAmount.Set? || u.cleaningAmount.Set?
                       then PatchOr(u.foodAmount, r.foodAmount) + PatchOr(u.cleaningAmount, r.cleaningAmount)
                       else r.totalAmount
    ensures var n := AdminUpdatedRecord(r, u, now);
      n.balance == if u.amountPaid.Set? then r.totalAmount - u.amountPaid.value else r.balance
  {
    AdminUpdateColumn(r, u, now, TotalAmountCol);
    AdminUpdateColumn(r, u, now, BalanceCol);
  }

  /** adminUpdateBooking leaves the calendar, status, approval and pricing-tier columns alone. */
  lemma AdminUpdateKeepsRest(r: DateRecord, u: AdminUpdate, now: Clock)
    ensures var n := AdminUpdatedRecord(r, u, now);
      && n.id == r.id && n.date == r.date && n.hijriDate == r.hijriDate && n.hijriDay == r.hijriDay
      && n.dayOfWeek == r.dayOfWeek && n.bookingStatus == r.bookingStatus
      && n.approvalStatus == r.approvalStatus && n.approvedBy == r.approvedBy
      && n.approvedAt == r.approvedAt && n.rejectionReason == r.rejectionReason
      && n.paymentDate == r.paymentDate && n.pricingTier == r.pricingTier
      && n.createdAt == r.createdAt && n.updatedAt == now
  {
    AdminUpdateColumn(r, u, now, SponsorNameCol);
  }

  /** When the stored total was the sum of its parts, it still is after any update. */
  lemma AdminUpdateKeepsTotal(r: DateRecord, u: AdminUpdate, now: Clock)
    requires r.totalAmount == r.foodAmount + r.cleaningAmount
    ensures var n := AdminUpdatedRecord(r, u, now); n.totalAmount == n.foodAmount + n.cleaningAmount
  {
    AdminUpdatePaymentFields(r, u, now);
    AdminUpdateDerivedAmounts(r, u, now);
  }

  /**
   * Sending new amounts and a payment together leaves a balance computed
   * from the old total: 1500 stored, 2000 + 100 sent, 500 paid gives a
   * balance of 1000 against a new total of 2100.
   */
  lemma AdminBalanceUsesStoredTotal(r: DateRecord, now: Clock)
    requires r.totalAmount == 1500
    ensures var u := AdminUpdate(Keep, Keep, Keep, Keep, Keep, Keep, Keep, Keep, Keep,
                                 Set(2000), Set(100), Keep, Keep, Keep, Set(500), Keep, Keep);
      var n := AdminUpdatedRecord(r, u, now);
      n.totalAmount == 2100 && n.amountPaid == 500 && n.balance == 1000 && n.balance != n.totalAmount - n.amountPaid
  {
    var u := AdminUpdate(Keep, Keep, Keep, Keep, Keep, Keep, Keep, Keep, Keep,
                         Set(2000), Set(100), Keep, Keep, Keep, Set(500), Keep, Keep);
    AdminUpdatePaymentFields(r, u, now);
    AdminUpdateDerivedAmounts(r, u, now);
  }
}
