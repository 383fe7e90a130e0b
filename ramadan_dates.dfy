/**
 * The fixed Ramadan 1447 calendar and its pricing rules
 * (src/database/ramadanDates.js): a constant table of dates, the last-ten-nights
 * list, the special nights, and the tier and guest-capacity classifiers.
 */
module RamadanDates {
  import opened Common
  import opened Schema
  import opened Config

  /** `hijri_day`: a day number, or the empty text the Eid entry stores instead. */
  datatype HijriDay = Day(n: int) | Blank

  datatype DateInfo = DateInfo(
    date: string,
    hijriDay: HijriDay,
    hijriDate: string,
    dayOfWeek: string,
    initialStatus: Option<BookingStatus>)

  const Dates: seq<DateInfo> := [
    DateInfo("2026-02-18", Day(1), "1 Ramadan 1447", "Wednesday", Some(Blocked)),
    DateInfo("2026-02-19", Day(2), "2 Ramadan 1447", "Thursday", Some(Blocked)),
    DateInfo("2026-02-20", Day(3), "3 Ramadan 1447", "Friday", Some(Blocked)),
    DateInfo("2026-02-21", Day(4), "4 Ramadan 1447", "Saturday", Some(HmccSponsored)),
    DateInfo("2026-02-22", Day(5), "5 Ramadan 1447", "Sunday", Some(Available)),
    DateInfo("2026-02-23", Day(6), "6 Ramadan 1447", "Monday", Some(Available)),
    DateInfo("2026-02-24", Day(7), "7 Ramadan 1447", "Tuesday", Some(Available)),
    DateInfo("2026-02-25", Day(8), "8 Ramadan 1447", "Wednesday", Some(Available)),
    DateInfo("2026-02-26", Day(9), "9 Ramadan 1447", "Thursday", Some(Available)),
    DateInfo("2026-02-27", Day(10), "10 Ramadan 1447", "Friday", Some(Available)),
    DateInfo("2026-02-28", Day(11), "11 Ramadan 1447", "Saturday", Some(Available)),
    DateInfo("2026-03-01", Day(12), "12 Ramadan 1447", "Sunday", Some(Available)),
    DateInfo("2026-03-02", Day(13), "13 Ramadan 1447", "Monday", Some(Available)),
    DateInfo("2026-03-03", Day(14), "14 Ramadan 1447", "Tuesday", Some(Available)),
    DateInfo("2026-03-04", Day(15), "15 Ramadan 1447", "Wednesday", Some(Available)),
    DateInfo("2026-03-05", Day(16), "16 Ramadan 1447", "Thursday", Some(Available)),
    DateInfo("2026-03-06", Day(17), "17 Ramadan 1447", "Friday", Some(Available)),
    DateInfo("2026-03-07", Day(18), "18 Ramadan 1447", "Saturday", Some(Available)),
    DateInfo("2026-03-08", Day(19), "19 Ramadan 1447", "Sunday", Some(Available)),
    DateInfo("2026-03-09", Day(20), "20 Ramadan 1447", "Monday", Some(Available)),
    DateInfo("2026-03-10", Day(21), "21 Ramadan 1447", "Tuesday", Some(Available)),
    DateInfo("2026-03-11", Day(22), "22 Ramadan 1447", "Wednesday", Some(Available)),
    DateInfo("2026-03-12", Day(23), "23 Ramadan 1447", "Thursday", Some(Available)),
    DateInfo("2026-03-13", Day(24), "24 Ramadan 1447", "Friday", Some(Available)),
    DateInfo("2026-03-14", Day(25), "25 Ramadan 1447", "Saturday", Some(Available)),
    DateInfo("2026-03-15", Day(26), "26 Ramadan 1447", "Sunday", Some(Available)),
    DateInfo("2026-03-16", Day(27), "27 Ramadan 1447", "Monday", Some(Available)),
    DateInfo("2026-03-17", Day(28), "28 Ramadan 1447", "Tuesday", Some(Available)),
    DateInfo("2026-03-18", Day(29), "29 Ramadan 1447", "Wednesday", Some(Available)),
    DateInfo("2026-03-19", Day(30), "30 Ramadan 1447", "Thursday", Some(Available)),
    DateInfo("2026-03-20", Blank, "1 Shawwal 1447 - Eid ul Fitr", "Friday", Some(Eid))
  ]

  const LastTenNights: seq<string> := ["2026-03-10", "2026-03-12", "2026-03-14", "2026-03-16", "2026-03-18"]

  datatype SpecialNight = SpecialNight(name: string, description: string)

  const SpecialNights: map<string, SpecialNight> := map[
    "2026-03-10" := SpecialNight("21st Night", "Possible Laylat al-Qadr"),
    "2026-03-12" := SpecialNight("23rd Night", "Possible Laylat al-Qadr"),
    "2026-03-14" := SpecialNight("25th Night", "Possible Laylat al-Qadr"),
    "2026-03-16" := SpecialNight("27th Night", "Most Likely Laylat al-Qadr"),
    "2026-03-18" := SpecialNight("29th Night", "Possible Laylat al-Qadr")
  ]

  predicate IsLastTenNights(date: string)
  {
    date in LastTenNights
  }

  predicate IsWeekend(dayOfWeek: string)
  {
    dayOfWeek in ["Friday", "Saturday", "Sunday"]
  }

  datatype Pricing = Pricing(foodAmount: int, cleaningAmount: int, total: int, tier: Tier, description: string)

  /** The configuration tier that belongs to each tier tag. */
  function RatesFor(cfg: Settings, t: Tier): TierRates
  {
    match t
    case Weekday => cfg.weekday
    case Weekend => cfg.weekend
    case Last10Nights => cfg.lastTenNights
  }

  /**
   * getPricing: the last-ten-nights list takes precedence over the weekday;
   * every amount and the description come from the tier whose tag is returned.
   */
  function GetPricing(cfg: Settings, date: string, dayOfWeek: string): (p: Pricing)
    ensures p.tier == Last10Nights <==> IsLastTenNights(date)
    ensures p.tier == Weekend <==> !IsLastTenNights(date) && IsWeekend(dayOfWeek)
    ensures p.tier == Weekday <==> !IsLastTenNights(date) && !IsWeekend(dayOfWeek)
    ensures p.foodAmount == RatesFor(cfg, p.tier).food
    ensures p.cleaningAmount == RatesFor(cfg, p.tier).cleaning
    ensures p.total == RatesFor(cfg, p.tier).total
    ensures p.description == RatesFor(cfg, p.tier).description
  {
    if IsLastTenNights(date) then
      Pricing(cfg.lastTenNights.food, cfg.lastTenNights.cleaning, cfg.lastTenNights.total,
              Last10Nights, cfg.lastTenNights.description)
    else if IsWeekend(dayOfWeek) then
      Pricing(cfg.weekend.food, cfg.weekend.cleaning, cfg.weekend.total, Weekend, cfg.weekend.description)
    else
      Pricing(cfg.weekday.food, cfg.weekday.cleaning, cfg.weekday.total, Weekday, cfg.weekday.description)
  }

  /** With a consistent configuration the derived total is the sum of the two parts. */
  lemma PricingAddsUp(cfg: Settings, date: string, dayOfWeek: string)
    requires Consistent(cfg)
    ensures var p := GetPricing(cfg, date, dayOfWeek); p.total == p.foodAmount + p.cleaningAmount
  {
  }

  /** getExpectedGuests: weekend capacity exactly on Friday, Saturday and Sunday. */
  function GetExpectedGuests(cfg: Settings, dayOfWeek: string): (g: int)
    ensures IsWeekend(dayOfWeek) ==> g == cfg.weekendGuests
    ensures !IsWeekend(dayOfWeek) ==> g == cfg.weekdayGuests
  {
    if IsWeekend(dayOfWeek) then cfg.weekendGuests else cfg.weekdayGuests
  }

  // ---------------------------------------------------------------------------
  // Structural facts about the constant tables

  lemma ConsecutiveDatesAscend(s: seq<DateInfo>)
    requires s == Dates
    ensures forall i :: 0 <= i < |s| - 1 ==> LexLess(s[i].date, s[i + 1].date)
  {
    FebruaryDatesAscend(s);
    EarlyMarchDatesAscend(s);
    LateMarchDatesAscend(s);
  }

  lemma FebruaryDatesAscend(s: seq<DateInfo>)
    requires s == Dates
    ensures forall i :: 0 <= i < 10 ==> LexLess(s[i].date, s[i + 1].date)
  {
  }

  lemma EarlyMarchDatesAscend(s: seq<DateInfo>)
    requires s == Dates
    ensures forall i :: 10 <= i < 20 ==> LexLess(s[i].date, s[i + 1].date)
  {
  }

  lemma LateMarchDatesAscend(s: seq<DateInfo>)
    requires s == Dates
    ensures forall i :: 20 <= i < 30 ==> LexLess(s[i].date, s[i + 1].date)
  {
  }

  /** The table is in strictly ascending date order, so its dates are distinct. */
  lemma {:induction false} DatesStrictlyAscending(i: nat, j: nat)
    requires i < j < |Dates|
    ensures LexLess(Dates[i].date, Dates[j].date)
    decreases j - i
  {
    ConsecutiveDatesAscend(Dates);
    if i + 1 < j {
      DatesStrictlyAscending(i + 1, j);
      LexLessTransitive(Dates[i].date, Dates[i + 1].date, Dates[j].date);
    }
  }

  lemma DatesUnique(i: nat, j: nat)
    requires i < |Dates| && j < |Dates| && i != j
    ensures Dates[i].date != Dates[j].date
  {
    if i < j {
      DatesStrictlyAscending(i, j);
    } else {
      DatesStrictlyAscending(j, i);
    }
    LexLessIrreflexive(Dates[i].date);
  }

  /** Thirty Ramadan days numbered 1..30 in order, then the Eid entry with an empty day. */
  lemma HijriDaysInOrder()
    ensures |Dates| == 31
    ensures forall i :: 0 <= i < 30 ==> Dates[i].hijriDay == Day(i + 1)
    ensures Dates[30].hijriDay == Blank && Dates[30].initialStatus == Some(Eid)
  {
    HijriDaysOf(Dates);
  }

  lemma HijriDaysOf(s: seq<DateInfo>)
    requires s == Dates
    ensures |s| == 31 && forall i :: 0 <= i < 30 ==> s[i].hijriDay == Day(i + 1)
  {
  }

  /** Every last-ten-nights date is a calendar date; they are the odd nights 21..29. */
  lemma LastTenNightsInCalendar(d: string)
    requires IsLastTenNights(d)
    ensures exists i :: 0 <= i < |Dates| && Dates[i].date == d && Dates[i].hijriDay in {Day(21), Day(23), Day(25), Day(27), Day(29)}
  {
    if d == "2026-03-10" { assert Dates[20].date == d; }
    else if d == "2026-03-12" { assert Dates[22].date == d; }
    else if d == "2026-03-14" { assert Dates[24].date == d; }
    else if d == "2026-03-16" { assert Dates[26].date == d; }
    else { assert Dates[28].date == d; }
  }

  /** The special nights are keyed by exactly the last-ten-nights dates. */
  lemma SpecialNightsAreLastTenNights()
    ensures SpecialNights.Keys == set d | d in LastTenNights
  {
  }

  predicate AdmittedSeedStatus(st: Option<BookingStatus>)
  {
    st == Some(Blocked) || st == Some(HmccSponsored) || st == Some(Available) || st == Some(Eid)
  }

  lemma InitialStatusesAdmitted(s: seq<DateInfo>)
    requires s == Dates
    ensures forall i :: 0 <= i < |s| ==> AdmittedSeedStatus(s[i].initialStatus)
  {
  }

  lemma BlockedEntries(s: seq<DateInfo>)
    requires s == Dates
    ensures forall i :: 0 <= i < |s| ==> (s[i].initialStatus == Some(Blocked) <==> i < 3)
  {
  }

  lemma SponsoredEntries(s: seq<DateInfo>)
    requires s == Dates
    ensures forall i :: 0 <= i < |s| ==> (s[i].initialStatus == Some(HmccSponsored) <==> i == 3)
  {
  }

  lemma EidEntries(s: seq<DateInfo>)
    requires s == Dates
    ensures forall i :: 0 <= i < |s| ==> (s[i].initialStatus == Some(Eid) <==> i == 30)
  {
  }

  /**
   * Every entry carries an initial status from the schema's enumeration: the
   * first three dates (Feb 18-20) are blocked, Feb 21 alone is HMCC sponsored,
   * Mar 20 alone is Eid, and every other date is available.
   */
  lemma InitialStatusLayout()
    ensures forall i :: 0 <= i < |Dates| ==> AdmittedSeedStatus(Dates[i].initialStatus)
    ensures forall i :: 0 <= i < |Dates| ==> (Dates[i].initialStatus == Some(Blocked) <==> i < 3)
    ensures forall i :: 0 <= i < |Dates| ==> (Dates[i].initialStatus == Some(HmccSponsored) <==> i == 3)
    ensures forall i :: 0 <= i < |Dates| ==> (Dates[i].initialStatus == Some(Eid) <==> i == 30)
    ensures Dates[0].date == "2026-02-18" && Dates[2].date == "2026-02-20" && Dates[3].date == "2026-02-21"
  {
    InitialStatusesAdmitted(Dates);
    BlockedEntries(Dates);
    SponsoredEntries(Dates);
    EidEntries(Dates);
  }
}
