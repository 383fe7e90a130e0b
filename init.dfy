/**
 * Database initialisation (src/database/init.js): seeding the calendar with
 * `INSERT OR IGNORE`, repairing the Hijri columns of existing rows, and the
 * `init` sequence that optionally drops the tables first.  The uuid of each
 * seeded row and the `datetime('now')` value are parameters.
 */
module Init {
  import opened Common
  import opened Schema
  import opened Config
  import opened RamadanDates
  import opened Records
  import opened BookingService

  const HmccSponsorName: string := "HMCC - Heathrow Muslim Community Center"

  // ---------------------------------------------------------------------------
  // seedRamadanDates

  /** The row seedRamadanDates inserts for one calendar entry. */
  function SeedRecord(cfg: Settings, info: DateInfo, id: string, now: Clock): (r: DateRecord)
    ensures && r.id == id && r.date == info.date && r.hijriDate == info.hijriDate
            && r.hijriDay == info.hijriDay && r.dayOfWeek == info.dayOfWeek
    ensures r.bookingStatus == if info.initialStatus.Some? then info.initialStatus.value else Available
    ensures info.initialStatus == Some(HmccSponsored) ==>
      r.sponsorName == Some(HmccSponsorName) && r.approvalStatus == Some(Approved)
    ensures info.initialStatus != Some(HmccSponsored) ==> r.sponsorName.None? && r.approvalStatus.None?
    ensures var p := GetPricing(cfg, info.date, info.dayOfWeek);
      && r.foodAmount == p.foodAmount && r.cleaningAmount == p.cleaningAmount
      && r.totalAmount == p.total && r.pricingTier == Some(p.tier)
    ensures r.expectedGuests == Some(GetExpectedGuests(cfg, info.dayOfWeek))
    ensures r.paymentStatus == PaymentPending && r.amountPaid == 0 && r.balance == 0
  {
    var p := GetPricing(cfg, info.date, info.dayOfWeek);
    var hmcc := info.initialStatus == Some(HmccSponsored);
    DateRecord(
      id, info.date, info.hijriDate, info.hijriDay, info.dayOfWeek,
      if hmcc then Some(HmccSponsorName) else None, None, None, None,
      None, None, None,
      Some(GetExpectedGuests(cfg, info.dayOfWeek)), None,
      p.foodAmount, p.cleaningAmount, p.total,
      None, None, None,
      0, 0, PaymentPending, None,
      if info.initialStatus.Some? then info.initialStatus.value else Available,
      if hmcc then Some(Approved) else None, None, None, None,
      Some(p.tier), None,
      now, now)
  }

  function SeedStep(cfg: Settings, rows: seq<DateRecord>, info: DateInfo, id: string, now: Clock): seq<DateRecord>
  {
    if HasId(rows, id) || HasDate(rows, info.date) then rows else rows + [SeedRecord(cfg, info, id, now)]
  }

  /** The table after seedRamadanDates has walked `infos`, giving entry k the uuid `ids[k]`. */
  function Seeded(cfg: Settings, rows: seq<DateRecord>, infos: seq<DateInfo>, ids: seq<string>, now: Clock): seq<DateRecord>
    requires |ids| == |infos|
    decreases |infos|
  {
    if infos == [] then rows
    else
      var n := |infos| - 1;
      SeedStep(cfg, Seeded(cfg, rows, infos[..n], ids[..n], now), infos[n], ids[n], now)
  }

  method SeedRamadanDates(store: CalendarStore, cfg: Settings, ids: seq<string>, now: Clock)
    requires store.Valid() && |ids| == |Dates|
    modifies store
    ensures store.Valid()
    ensures store.rows == Seeded(cfg, old(store.rows), Dates, ids, now)
    ensures store.log == old(store.log)
  {
    for k := 0 to |Dates|
      invariant store.Valid()
      invariant store.rows == Seeded(cfg, old(store.rows), Dates[..k], ids[..k], now)
      invariant store.log == old(store.log)
    {
      assert Dates[..k + 1][..k] == Dates[..k] && ids[..k + 1][..k] == ids[..k];
      var _ := store.InsertOrIgnore(SeedRecord(cfg, Dates[k], ids[k], now));
    }
    assert Dates[..|Dates|] == Dates && ids[..|ids|] == ids;
  }

  /** The uuids are distinct from each other and from every id already in the table. */
  predicate FreshIds(rows: seq<DateRecord>, ids: seq<string>)
  {
    && (forall i, j :: 0 <= i < j < |ids| ==> ids[i] != ids[j])
    && (forall k :: 0 <= k < |ids| ==> !HasId(rows, ids[k]))
  }

  predicate DistinctDates(infos: seq<DateInfo>)
  {
    forall i, j :: 0 <= i < j < |infos| ==> infos[i].date != infos[j].date
  }

  lemma CalendarDatesDistinct()
    ensures DistinctDates(Dates)
  {
    forall i, j | 0 <= i < j < |Dates| ensures Dates[i].date != Dates[j].date {
      DatesUnique(i, j);
    }
  }

  lemma PrefixFresh(rows: seq<DateRecord>, ids: seq<string>, n: nat)
    requires FreshIds(rows, ids) && n <= |ids|
    ensures FreshIds(rows, ids[..n])
  {
  }

  /** Seeding only appends: the rows already there stay first and unchanged. */
  lemma {:induction false} SeededExtends(cfg: Settings, rows: seq<DateRecord>, infos: seq<DateInfo>, ids: seq<string>, now: Clock)
    requires |ids| == |infos|
    ensures |rows| <= |Seeded(cfg, rows, infos, ids, now)|
    ensures Seeded(cfg, rows, infos, ids, now)[..|rows|] == rows
    decreases |infos|
  {
    if infos != [] {
      var n := |infos| - 1;
      SeededExtends(cfg, rows, infos[..n], ids[..n], now);
      var prev := Seeded(cfg, rows, infos[..n], ids[..n], now);
      assert (prev + [SeedRecord(cfg, infos[n], ids[n], now)])[..|rows|] == prev[..|rows|];
    }
  }

  /** Every seeded row keeps both keys unique. */
  lemma {:induction false} SeededKeepsKeys(cfg: Settings, rows: seq<DateRecord>, infos: seq<DateInfo>, ids: seq<string>, now: Clock)
    requires |ids| == |infos| && UniqueKeys(rows)
    ensures UniqueKeys(Seeded(cfg, rows, infos, ids, now))
    decreases |infos|
  {
    if infos != [] {
      var n := |infos| - 1;
      SeededKeepsKeys(cfg, rows, infos[..n], ids[..n], now);
    }
  }

  /** A seeded table holds only the ids it had and the uuids handed out. */
  lemma {:induction false} SeededIds(cfg: Settings, rows: seq<DateRecord>, infos: seq<DateInfo>, ids: seq<string>, now: Clock, x: string)
    requires |ids| == |infos|
    ensures HasId(Seeded(cfg, rows, infos, ids, now), x) ==> HasId(rows, x) || x in ids
    decreases |infos|
  {
    if infos != [] {
      var n := |infos| - 1;
      var prev := Seeded(cfg, rows, infos[..n], ids[..n], now);
      var result := Seeded(cfg, rows, infos, ids, now);
      SeededIds(cfg, rows, infos[..n], ids[..n], now, x);
      if x in ids[..n] {
        var k :| 0 <= k < n && ids[..n][k] == x;
        assert ids[k] == x;
      }
      if HasId(result, x) && !HasId(prev, x) {
        var k :| 0 <= k < |result| && result[k].id == x;
        assert k == |prev|;
      }
    }
  }

  lemma HasDateGrows(rows: seq<DateRecord>, more: seq<DateRecord>, d: string)
    requires HasDate(rows, d)
    ensures HasDate(rows + more, d)
  {
    var k :| 0 <= k < |rows| && rows[k].date == d;
    assert (rows + more)[k] == rows[k];
  }

  /** With fresh uuids, every calendar date is in the table after seeding. */
  lemma {:induction false} SeededHasEveryDate(cfg: Settings, rows: seq<DateRecord>, infos: seq<DateInfo>, ids: seq<string>, now: Clock)
    requires |ids| == |infos| && FreshIds(rows, ids)
    ensures forall k :: 0 <= k < |infos| ==> HasDate(Seeded(cfg, rows, infos, ids, now), infos[k].date)
    decreases |infos|
  {
    if infos != [] {
      var n := |infos| - 1;
      var prev := Seeded(cfg, rows, infos[..n], ids[..n], now);
      var result := Seeded(cfg, rows, infos, ids, now);
      PrefixFresh(rows, ids, n);
      SeededHasEveryDate(cfg, rows, infos[..n], ids[..n], now);
      SeededIds(cfg, rows, infos[..n], ids[..n], now, ids[n]);
      forall k | 0 <= k < n ensures ids[..n][k] != ids[n] {
        assert ids[..n][k] == ids[k];
      }
      assert !HasId(prev, ids[n]);
      forall k | 0 <= k < |infos|
        ensures HasDate(result, infos[k].date)
      {
        if k < n {
          assert infos[..n][k] == infos[k];
          if result != prev {
            HasDateGrows(prev, [SeedRecord(cfg, infos[n], ids[n], now)], infos[k].date);
          }
        } else if !HasDate(prev, infos[n].date) {
          assert result[|prev|].date == infos[n].date;
        }
      }
    }
  }

  /** When every date is already present, seeding changes nothing. */
  lemma {:induction false} SeedingPresentDatesIsNoop(cfg: Settings, rows: seq<DateRecord>, infos: seq<DateInfo>, ids: seq<string>, now: Clock)
    requires |ids| == |infos|
    requires forall k :: 0 <= k < |infos| ==> HasDate(rows, infos[k].date)
    ensures Seeded(cfg, rows, infos, ids, now) == rows
    decreases |infos|
  {
    if infos != [] {
      var n := |infos| - 1;
      forall k | 0 <= k < n ensures HasDate(rows, infos[..n][k].date) {
        assert infos[..n][k] == infos[k];
      }
      SeedingPresentDatesIsNoop(cfg, rows, infos[..n], ids[..n], now);
    }
  }

  /** Seeding is idempotent: a second run, with any uuids, inserts nothing. */
  lemma SeedTwiceIsSeedOnce(cfg: Settings, rows: seq<DateRecord>, ids1: seq<string>, ids2: seq<string>, t1: Clock, t2: Clock)
    requires |ids1| == |Dates| && |ids2| == |Dates| && FreshIds(rows, ids1)
    ensures var once := Seeded(cfg, rows, Dates, ids1, t1);
      Seeded(cfg, once, Dates, ids2, t2) == once
  {
    SeededHasEveryDate(cfg, rows, Dates, ids1, t1);
    SeedingPresentDatesIsNoop(cfg, Seeded(cfg, rows, Dates, ids1, t1), Dates, ids2, t2);
  }

  /** The rows a seed of an empty table writes, one per entry, in calendar order. */
  function SeedRows(cfg: Settings, infos: seq<DateInfo>, ids: seq<string>, now: Clock): (s: seq<DateRecord>)
    requires |ids| == |infos|
    ensures |s| == |infos|
    ensures forall k :: 0 <= k < |infos| ==> s[k] == SeedRecord(cfg, infos[k], ids[k], now)
  {
    seq(|infos|, k requires 0 <= k < |infos| => SeedRecord(cfg, infos[k], ids[k], now))
  }

  lemma SeedRowsSnoc(cfg: Settings, infos: seq<DateInfo>, ids: seq<string>, now: Clock)
    requires |ids| == |infos| && infos != []
    ensures var n := |infos| - 1;
      SeedRows(cfg, infos[..n], ids[..n], now) + [SeedRecord(cfg, infos[n], ids[n], now)] == SeedRows(cfg, infos, ids, now)
  {
    var n := |infos| - 1;
    var a := SeedRows(cfg, infos[..n], ids[..n], now) + [SeedRecord(cfg, infos[n], ids[n], now)];
    var b := SeedRows(cfg, infos, ids, now);
    forall k | 0 <= k < |b| ensures a[k] == b[k] {
      if k < n {
        assert infos[..n][k] == infos[k] && ids[..n][k] == ids[k];
      }
    }
  }

  lemma {:induction false} SeedEmptyTable(cfg: Settings, infos: seq<DateInfo>, ids: seq<string>, now: Clock)
    requires |ids| == |infos| && FreshIds([], ids) && DistinctDates(infos)
    ensures Seeded(cfg, [], infos, ids, now) == SeedRows(cfg, infos, ids, now)
    decreases |infos|
  {
    if infos != [] {
      var n := |infos| - 1;
      SeedEmptyTable(cfg, infos[..n], ids[..n], now);
      var prev := SeedRows(cfg, infos[..n], ids[..n], now);
      forall k | 0 <= k < |prev| ensures prev[k].id != ids[n] && prev[k].date != infos[n].date {
        assert prev[k].id == ids[k] && prev[k].date == infos[k].date;
      }
      SeedRowsSnoc(cfg, infos, ids, now);
    }
  }

  /**
   * Seeding an empty table gives the 31 calendar rows: Feb 18-20 blocked,
   * Feb 21 sponsored and approved in HMCC's name, Mar 20 the Eid row, every
   * other date available and unsponsored.
   */
  lemma FreshSeedLayout(cfg: Settings, ids: seq<string>, now: Clock)
    requires |ids| == |Dates| && FreshIds([], ids)
    ensures var s := Seeded(cfg, [], Dates, ids, now);
      && |s| == 31 && UniqueKeys(s)
      && (forall k :: 0 <= k < |s| ==> s[k].date == Dates[k].date && s[k].id == ids[k])
      && (forall k :: 0 <= k < |s| ==> (s[k].bookingStatus == Blocked <==> k < 3))
      && (forall k :: 0 <= k < |s| ==> (s[k].bookingStatus == HmccSponsored <==> k == 3))
      && (forall k :: 0 <= k < |s| ==> (s[k].bookingStatus == Eid <==> k == 30))
      && (forall k :: 0 <= k < |s| ==> (s[k].bookingStatus == Available <==> 3 < k < 30))
      && (forall k :: 0 <= k < |s| ==> (s[k].sponsorName.Some? <==> k == 3))
  {
    FreshSeedShape(cfg, ids, now);
    FreshSeedStatuses(cfg, ids, now);
  }

  lemma FreshSeedShape(cfg: Settings, ids: seq<string>, now: Clock)
    requires |ids| == |Dates| && FreshIds([], ids)
    ensures var s := Seeded(cfg, [], Dates, ids, now);
      && s == SeedRows(cfg, Dates, ids, now) && |s| == 31 && UniqueKeys(s)
      && (forall k :: 0 <= k < |s| ==> s[k].date == Dates[k].date && s[k].id == ids[k])
  {
    CalendarDatesDistinct();
    SeedEmptyTable(cfg, Dates, ids, now);
    SeededKeepsKeys(cfg, [], Dates, ids, now);
    HijriDaysInOrder();
  }

  lemma FreshSeedStatuses(cfg: Settings, ids: seq<string>, now: Clock)
    requires |ids| == |Dates| && FreshIds([], ids)
    ensures var s := SeedRows(cfg, Dates, ids, now);
      && (forall k :: 0 <= k < |s| ==> (s[k].bookingStatus == Blocked <==> k < 3))
      && (forall k :: 0 <= k < |s| ==> (s[k].bookingStatus == HmccSponsored <==> k == 3))
      && (forall k :: 0 <= k < |s| ==> (s[k].bookingStatus == Eid <==> k == 30))
      && (forall k :: 0 <= k < |s| ==> (s[k].bookingStatus == Available <==> 3 < k < 30))
      && (forall k :: 0 <= k < |s| ==> (s[k].sponsorName.Some? <==> k == 3))
  {
    InitialStatusLayout();
    HijriDaysInOrder();
    var s := SeedRows(cfg, Dates, ids, now);
    forall k | 0 <= k < |s|
      ensures (s[k].bookingStatus == Blocked <==> k < 3)
      ensures (s[k].bookingStatus == HmccSponsored <==> k == 3)
      ensures (s[k].bookingStatus == Eid <==> k == 30)
      ensures (s[k].bookingStatus == Available <==> 3 < k < 30)
      ensures (s[k].sponsorName.Some? <==> k == 3)
    {
      SeedRecordStatus(cfg, Dates[k], ids[k], now);
    }
  }

  /** The seeded status and sponsor of one row, read off its table entry. */
  lemma SeedRecordStatus(cfg: Settings, info: DateInfo, id: string, now: Clock)
    requires AdmittedSeedStatus(info.initialStatus)
    ensures var r := SeedRecord(cfg, info, id, now);
      && (r.bookingStatus == Blocked <==> info.initialStatus == Some(Blocked))
      && (r.bookingStatus == HmccSponsored <==> info.initialStatus == Some(HmccSponsored))
      && (r.bookingStatus == Eid <==> info.initialStatus == Some(Eid))
      && (r.bookingStatus == Available <==> info.initialStatus == Some(Available))
      && (r.sponsorName.Some? <==> info.initialStatus == Some(HmccSponsored))
  {
  }

  // ---------------------------------------------------------------------------
  // fixHijriDates

  /** The WHERE condition of the repair: the stored Hijri day or date differs from the table's. */
  predicate NeedsHijriFix(r: DateRecord, info: DateInfo)
  {
    r.hijriDay != info.hijriDay || r.hijriDate != info.hijriDate
  }

  function HijriFixed(r: DateRecord, info: DateInfo, now: Clock): (n: DateRecord)
    ensures n.hijriDay == info.hijriDay && n.hijriDate == info.hijriDate && n.dayOfWeek == info.dayOfWeek
    ensures n.updatedAt == now && SameKey(r, n)
  {
    r.(hijriDay := info.hijriDay, hijriDate := info.hijriDate, dayOfWeek := info.dayOfWeek, updatedAt := now)
  }

  /** Whether the UPDATE for `info` affects a row. */
  predicate FixAffects(rows: seq<DateRecord>, info: DateInfo)
  {
    FindByDate(rows, info.date).Some? && NeedsHijriFix(rows[FindByDate(rows, info.date).value], info)
  }

  function FixStep(rows: seq<DateRecord>, info: DateInfo, now: Clock): seq<DateRecord>
  {
    if FixAffects(rows, info) then
      var i := FindByDate(rows, info.date).value;
      rows[i := HijriFixed(rows[i], info, now)]
    else rows
  }

  function Fixed(rows: seq<DateRecord>, infos: seq<DateInfo>, now: Clock): seq<DateRecord>
    decreases |infos|
  {
    if infos == [] then rows
    else FixStep(Fixed(rows, infos[..|infos| - 1], now), infos[|infos| - 1], now)
  }

  /** The `updated` counter: how many of the UPDATEs affected a row. */
  function FixCount(rows: seq<DateRecord>, infos: seq<DateInfo>, now: Clock): nat
    decreases |infos|
  {
    if infos == [] then 0
    else
      var n := |infos| - 1;
      FixCount(rows, infos[..n], now) + (if FixAffects(Fixed(rows, infos[..n], now), infos[n]) then 1 else 0)
  }

  /** One more table entry adds one step to the repair and to its counter. */
  lemma FixedStep(rows: seq<DateRecord>, infos: seq<DateInfo>, k: nat, now: Clock)
    requires k < |infos|
    ensures Fixed(rows, infos[..k + 1], now) == FixStep(Fixed(rows, infos[..k], now), infos[k], now)
    ensures FixCount(rows, infos[..k + 1], now)
         == FixCount(rows, infos[..k], now) + (if FixAffects(Fixed(rows, infos[..k], now), infos[k]) then 1 else 0)
  {
    assert infos[..k + 1][..k] == infos[..k];
  }

  method FixHijriDates(store: CalendarStore, now: Clock) returns (updated: nat)
    requires store.Valid()
    modifies store
    ensures store.Valid()
    ensures store.rows == Fixed(old(store.rows), Dates, now) && store.log == old(store.log)
    ensures updated == FixCount(old(store.rows), Dates, now)
  {
    updated := 0;
    for k := 0 to |Dates|
      invariant store.Valid()
      invariant store.rows == Fixed(old(store.rows), Dates[..k], now)
      invariant updated == FixCount(old(store.rows), Dates[..k], now)
      invariant store.log == old(store.log)
    {
      FixedStep(old(store.rows), Dates, k, now);
      var info := Dates[k];
      var found := FindByDate(store.rows, info.date);
      if found.Some? && NeedsHijriFix(store.rows[found.value], info) {
        store.WriteRow(found.value, HijriFixed(store.rows[found.value], info, now));
        updated := updated + 1;
      }
    }
    assert Dates[..|Dates|] == Dates;
  }

  /** The repair writes nothing but the Hijri day, the Hijri date, the weekday and updated_at. */
  predicate SameBooking(a: DateRecord, b: DateRecord)
  {
    a.(hijriDay := b.hijriDay, hijriDate := b.hijriDate, dayOfWeek := b.dayOfWeek, updatedAt := b.updatedAt) == b
  }

  lemma {:induction false} FixPreservesBookings(rows: seq<DateRecord>, infos: seq<DateInfo>, now: Clock)
    ensures |Fixed(rows, infos, now)| == |rows|
    ensures forall k :: 0 <= k < |rows| ==> SameBooking(rows[k], Fixed(rows, infos, now)[k])
    decreases |infos|
  {
    if infos != [] {
      FixPreservesBookings(rows, infos[..|infos| - 1], now);
    }
  }

  /** The row of a date agrees with the table entry for it, or there is no such row. */
  predicate Agrees(rows: seq<DateRecord>, info: DateInfo)
  {
    !FixAffects(rows, info)
  }

  lemma StepKeepsAgreement(rows: seq<DateRecord>, info: DateInfo, other: DateInfo, now: Clock)
    requires UniqueKeys(rows) && Agrees(rows, other) && info.date != other.date
    ensures Agrees(FixStep(rows, info, now), other)
  {
    if FixAffects(rows, info) {
      var i := FindByDate(rows, info.date).value;
      var n := HijriFixed(rows[i], info, now);
      UpdateKeepsKeys(rows, i, n);
      var after := rows[i := n];
      var f := FindByDate(after, other.date);
      if f.Some? {
        assert f.value != i;
        FindByDateUnique(rows, other.date, f.value);
      }
    }
  }

  lemma StepAgrees(rows: seq<DateRecord>, info: DateInfo, now: Clock)
    requires UniqueKeys(rows)
    ensures Agrees(FixStep(rows, info, now), info)
  {
    if FixAffects(rows, info) {
      var i := FindByDate(rows, info.date).value;
      var n := HijriFixed(rows[i], info, now);
      UpdateKeepsKeys(rows, i, n);
      FindByDateUnique(rows[i := n], info.date, i);
    }
  }

  lemma {:induction false} FixedKeepsKeys(rows: seq<DateRecord>, infos: seq<DateInfo>, now: Clock)
    requires UniqueKeys(rows)
    ensures UniqueKeys(Fixed(rows, infos, now))
    decreases |infos|
  {
    if infos != [] {
      var prev := Fixed(rows, infos[..|infos| - 1], now);
      FixedKeepsKeys(rows, infos[..|infos| - 1], now);
      if FixAffects(prev, infos[|infos| - 1]) {
        var i := FindByDate(prev, infos[|infos| - 1].date).value;
        UpdateKeepsKeys(prev, i, HijriFixed(prev[i], infos[|infos| - 1], now));
      }
    }
  }

  /** After the repair every date of the table agrees with its entry. */
  lemma {:induction false} FixedAgrees(rows: seq<DateRecord>, infos: seq<DateInfo>, now: Clock)
    requires UniqueKeys(rows) && DistinctDates(infos)
    ensures forall k :: 0 <= k < |infos| ==> Agrees(Fixed(rows, infos, now), infos[k])
    decreases |infos|
  {
    if infos != [] {
      var n := |infos| - 1;
      var prev := Fixed(rows, infos[..n], now);
      FixedAgrees(rows, infos[..n], now);
      FixedKeepsKeys(rows, infos[..n], now);
      forall k | 0 <= k < |infos|
        ensures Agrees(Fixed(rows, infos, now), infos[k])
      {
        if k < n {
          assert infos[..n][k] == infos[k];
          StepKeepsAgreement(prev, infos[n], infos[k], now);
        } else {
          StepAgrees(prev, infos[n], now);
        }
      }
    }
  }

  /** When every entry already agrees, the repair changes nothing and counts nothing. */
  lemma {:induction false} FixAgreeingIsNoop(rows: seq<DateRecord>, infos: seq<DateInfo>, now: Clock)
    requires forall k :: 0 <= k < |infos| ==> Agrees(rows, infos[k])
    ensures Fixed(rows, infos, now) == rows && FixCount(rows, infos, now) == 0
    decreases |infos|
  {
    if infos != [] {
      var n := |infos| - 1;
      forall k | 0 <= k < n ensures Agrees(rows, infos[..n][k]) {
        assert infos[..n][k] == infos[k];
      }
      FixAgreeingIsNoop(rows, infos[..n], now);
    }
  }

  /** A second repair run finds nothing to fix ("All hijri dates are already correct"). */
  lemma FixTwiceCountsZero(rows: seq<DateRecord>, t1: Clock, t2: Clock)
    requires UniqueKeys(rows)
    ensures var once := Fixed(rows, Dates, t1);
      Fixed(once, Dates, t2) == once && FixCount(once, Dates, t2) == 0
  {
    CalendarDatesDistinct();
    FixedAgrees(rows, Dates, t1);
    FixAgreeingIsNoop(Fixed(rows, Dates, t1), Dates, t2);
  }

  /** Rows freshly seeded from the table already carry its Hijri data. */
  lemma FreshSeedAgrees(cfg: Settings, ids: seq<string>, now: Clock)
    requires |ids| == |Dates| && FreshIds([], ids)
    ensures forall k :: 0 <= k < |Dates| ==> Agrees(SeedRows(cfg, Dates, ids, now), Dates[k])
  {
    var s := SeedRows(cfg, Dates, ids, now);
    FreshSeedShape(cfg, ids, now);
    forall k | 0 <= k < |Dates|
      ensures Agrees(s, Dates[k])
    {
      FindByDateUnique(s, Dates[k].date, k);
    }
  }

  // ---------------------------------------------------------------------------
  // init

  method Init(store: CalendarStore, cfg: Settings, freshStart: bool, ids: seq<string>, now: Clock) returns (fixedCount: nat)
    requires store.Valid() && |ids| == |Dates|
    modifies store
    ensures store.Valid()
    ensures var seeded := Seeded(cfg, if freshStart then [] else old(store.rows), Dates, ids, now);
      store.rows == Fixed(seeded, Dates, now) && fixedCount == FixCount(seeded, Dates, now)
    ensures store.log == if freshStart then [] else old(store.log)
  {
    if freshStart {
      store.DropAll();
    }
    SeedRamadanDates(store, cfg, ids, now);
    fixedCount := FixHijriDates(store, now);
  }

  /** A fresh start leaves exactly the seeded calendar, with nothing for the repair to do. */
  lemma FreshInitIsSeedRows(cfg: Settings, ids: seq<string>, now: Clock)
    requires |ids| == |Dates| && FreshIds([], ids)
    ensures var seeded := Seeded(cfg, [], Dates, ids, now);
      Fixed(seeded, Dates, now) == SeedRows(cfg, Dates, ids, now) && FixCount(seeded, Dates, now) == 0
  {
    CalendarDatesDistinct();
    SeedEmptyTable(cfg, Dates, ids, now);
    FreshSeedAgrees(cfg, ids, now);
    FixAgreeingIsNoop(SeedRows(cfg, Dates, ids, now), Dates, now);
  }

  // ---------------------------------------------------------------------------
  // Booking round trips on a seeded row

  /**
   * A request without a head count on an available seeded date, cancelled
   * afterwards, returns the row to exactly its seeded state (but for
   * updated_at).
   */
  lemma CancelRestoresSeed(cfg: Settings, info: DateInfo, id: string, req: BookingRequest, t0: Clock, t1: Clock, t2: Clock)
    requires info.initialStatus == Some(Available) || info.initialStatus.None?
    requires req.expectedGuests.None? || req.expectedGuests.value == 0
    ensures var s := SeedRecord(cfg, info, id, t0);
      CreateRefusal(s).None? && CancelledRecord(CreatedRecord(cfg, s, req, t1), t2) == s.(updatedAt := t2)
  {
  }

  /** Rejecting such a request also restores the seeded row, marked rejected with its reason. */
  lemma RejectRestoresSeed(cfg: Settings, info: DateInfo, id: string, req: BookingRequest, reason: Option<string>, t0: Clock, t1: Clock, t2: Clock)
    requires info.initialStatus == Some(Available) || info.initialStatus.None?
    requires req.expectedGuests.None? || req.expectedGuests.value == 0
    ensures var s := SeedRecord(cfg, info, id, t0);
      RejectedRecord(CreatedRecord(cfg, s, req, t1), reason, t2)
        == s.(approvalStatus := Some(Rejected), rejectionReason := Some(RejectionText(reason)), updatedAt := t2)
  {
  }
}
