/**
 * The pricing and guest-capacity constants of src/config/index.js, taken as an
 * immutable configuration value that the other modules receive as a parameter.
 */
module Config {
  import opened Common

  datatype TierRates = TierRates(food: int, cleaning: int, total: int, description: string)

  datatype Settings = Settings(
    weekday: TierRates,
    weekend: TierRates,
    lastTenNights: TierRates,
    weekdayGuests: int,
    weekendGuests: int)

  const FlatDescription: string := "Iftar Sponsorship: $1,500 ($1,400 Food + $100 Cleanup)"

  /** The values the repository ships with: one flat rate for every tier, 100 guests every day. */
  const Default: Settings := Settings(
    TierRates(1400, 100, 1500, FlatDescription),
    TierRates(1400, 100, 1500, FlatDescription),
    TierRates(1400, 100, 1500, FlatDescription),
    100,
    100)

  /** `config.pricing[key]`: the pricing object is keyed weekday, weekend and lastTenNights. */
  function PricingByKey(cfg: Settings, key: string): (r: Option<TierRates>)
    ensures r.Some? <==> key == "weekday" || key == "weekend" || key == "lastTenNights"
    ensures key == "weekday" ==> r == Some(cfg.weekday)
    ensures key == "weekend" ==> r == Some(cfg.weekend)
    ensures key == "lastTenNights" ==> r == Some(cfg.lastTenNights)
  {
    if key == "weekday" then Some(cfg.weekday)
    else if key == "weekend" then Some(cfg.weekend)
    else if key == "lastTenNights" then Some(cfg.lastTenNights)
    else None
  }

  /** The configured total of a tier is the sum of its food and cleaning parts. */
  predicate RatesAddUp(t: TierRates)
  {
    t.total == t.food + t.cleaning
  }

  predicate Consistent(cfg: Settings)
  {
    RatesAddUp(cfg.weekday) && RatesAddUp(cfg.weekend) && RatesAddUp(cfg.lastTenNights)
  }

  /** The shipped values: every tier costs $1,400 for food plus $100 for cleanup, $1,500 in all. */
  lemma DefaultConsistent()
    ensures Consistent(Default)
    ensures forall key :: PricingByKey(Default, key).Some? ==>
      PricingByKey(Default, key).value == TierRates(1400, 100, 1500, FlatDescription)
  {
  }
}
