/** The fee-rate table and the amounts of one exchange: the fee is charged at
    the destination asset's configured rate, on the destination value. */
module FeeRates {
  import opened Types
  import opened Prices

  /** Per-asset exchange fee rates; an asset with no configured rate is
      charged `defaultRate`. */
  datatype FeeTable = FeeTable(rates: map<Asset, FeeRate>, defaultRate: FeeRate)

  /** The rate configured for one asset. */
  function ConfiguredRate(table: FeeTable, a: Asset): FeeRate {
    if a in table.rates then table.rates[a] else table.defaultRate
  }

  /** The fee rate charged when exchanging `src` into `dest`. The source asset
      plays no part: long/long, inverse/inverse, inverse/long and swing trades
      between an asset and its inverse all pay the destination's rate, never a
      multiple of it. */
  function FeeRateForExchange(table: FeeTable, src: Asset, dest: Asset): FeeRate {
    ConfiguredRate(table, dest)
  }

  /** Whatever the source, the rate is the destination's configured rate,
      and the default rate when the destination has none. */
  lemma FeeRateIsDestinationRate(table: FeeTable, src: Asset, other: Asset, dest: Asset)
    ensures FeeRateForExchange(table, src, dest) == FeeRateForExchange(table, other, dest)
    ensures dest in table.rates ==> FeeRateForExchange(table, src, dest) == table.rates[dest]
    ensures dest !in table.rates ==> FeeRateForExchange(table, src, dest) == table.defaultRate
  {
  }

  /** Updates the rate of one asset (the owner-gated fee-table setter). */
  function SetFeeRate(table: FeeTable, a: Asset, rate: FeeRate): (t: FeeTable)
    ensures ConfiguredRate(t, a) == rate
    ensures forall b :: b != a ==> ConfiguredRate(t, b) == ConfiguredRate(table, b)
  {
    table.(rates := table.rates[a := rate])
  }

  /** What one exchange yields, all in units of the destination asset. */
  datatype ExchangeAmounts = ExchangeAmounts(amountReceived: Amount, fee: Amount, exchangeFeeRate: FeeRate)

  /** Values `amount` of `src` in `dest` at `now`, keeps the part not taken by
      the fee, and returns the fee as the remainder. */
  function GetAmountsForExchange(o: Oracle, table: FeeTable, amount: Amount, src: Asset, dest: Asset, now: Time): (r: ExchangeAmounts)
    ensures r.exchangeFeeRate == FeeRateForExchange(table, src, dest)
    // the fee is the destination value times the destination's fee rate
    ensures r.fee == EffectiveValue(o, src, amount, dest, now) * ConfiguredRate(table, dest)
    // nothing is created or lost: received plus fee is the whole value
    ensures r.amountReceived + r.fee == EffectiveValue(o, src, amount, dest, now)
  {
    var value := EffectiveValue(o, src, amount, dest, now);
    var rate := FeeRateForExchange(table, src, dest);
    var received := value * (1.0 - rate);
    assert received >= 0.0 && received <= value by {
      assert value * rate >= 0.0;
      assert value * rate <= value * 1.0;
    }
    ExchangeAmounts(received, value - received, rate)
  }

  /** Scaling the destination's fee rate by `k` scales the fee by `k`, and the
      amount received is the value less the scaled fee. */
  lemma FeeScalesWithRate(o: Oracle, table: FeeTable, amount: Amount, src: Asset, dest: Asset, now: Time, k: real)
    requires 0.0 <= k * ConfiguredRate(table, dest) <= 1.0
    ensures var before := GetAmountsForExchange(o, table, amount, src, dest, now);
            var after := GetAmountsForExchange(o, SetFeeRate(table, dest, k * ConfiguredRate(table, dest)), amount, src, dest, now);
            && after.exchangeFeeRate == k * before.exchangeFeeRate
            && after.fee == k * before.fee
            && after.amountReceived == EffectiveValue(o, src, amount, dest, now) - k * before.fee
  {
    var value := EffectiveValue(o, src, amount, dest, now);
    var r := ConfiguredRate(table, dest);
    assert value * (k * r) == k * (value * r);
  }

  /** The fee never exceeds the value, and a zero rate charges nothing. */
  lemma FeeBounded(o: Oracle, table: FeeTable, amount: Amount, src: Asset, dest: Asset, now: Time)
    ensures var r := GetAmountsForExchange(o, table, amount, src, dest, now);
            && r.fee <= EffectiveValue(o, src, amount, dest, now)
            && r.amountReceived <= EffectiveValue(o, src, amount, dest, now)
            && (ConfiguredRate(table, dest) == 0.0 ==> r.fee == 0.0)
  {
    var value := EffectiveValue(o, src, amount, dest, now);
    var rate := ConfiguredRate(table, dest);
    assert value * rate <= value * 1.0;
  }
}
