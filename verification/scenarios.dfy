/** Worked examples: concrete prices and balances, with the amounts the engine
    must produce. Every exchange pays a 1% fee and waits 60 seconds. */
module Scenarios {
  import opened Types
  import opened Prices
  import opened FeeRates
  import opened SettlementQueue
  import opened Reconciler
  import opened Exchanger
  import opened EngineProperties

  const SUSD: Asset := "sUSD"
  const SEUR: Asset := "sEUR"
  const SBTC: Asset := "sBTC"

  /** Every asset pays 1%. */
  function OnePercent(): FeeTable {
    FeeTable(map[], 0.01)
  }

  /** A market with sUSD at 1 and sEUR at 2 until time 5, then at `later`;
      sBTC is priced at 9000. Nothing is stale. */
  function EurMoves(later: Price): Oracle {
    Oracle((a: Asset, t: Time) => if a == SEUR then (if t < 5 then 2.0 else later) else if a == SBTC then 9000.0 else 1.0,
           (a: Asset, t: Time) => false)
  }

  /** A fresh engine with one holding. */
  function Funded(account: Account, asset: Asset, balance: Amount): State {
    State(Config(60, 12, OnePercent()), Status(false, false, {}), map[Holding(account, asset) := balance], map[], map[], {})
  }

  /** The amount exchanged after a settlement, for a holder of 1000 sEUR:
      below the balance the request stands, above it the balance is used, and
      a refund is added on top in both cases. */
  lemma AmountAfterSettlementExamples()
    ensures CalculateAmountAfterSettlement(Funded(1, SEUR, 1000.0), 1, SEUR, 500.0, 0.0) == 500.0
    ensures CalculateAmountAfterSettlement(Funded(1, SEUR, 1000.0), 1, SEUR, 500.0, 25.0) == 525.0
    ensures CalculateAmountAfterSettlement(Funded(1, SEUR, 1000.0), 1, SEUR, 1200.0, 0.0) == 1000.0
    ensures CalculateAmountAfterSettlement(Funded(1, SEUR, 1000.0), 1, SEUR, 1200.0, 50.0) == 1050.0
  {
  }

  /** 100 sUSD exchanged into sEUR at time 0, at sEUR = 2, under a 1% fee. */
  function EurEntry(): Entry {
    Entry(SUSD, 100.0, SEUR, 49.5, 0.01, 0)
  }

  /** What the sEUR queue owes after the price of sEUR moves to 4 (a reclaim
      of half the holding) or to 1 (a rebate of as much again). */
  lemma OwingAfterEurMoves()
    ensures RecordedAtTradePrice(EurMoves(4.0), EurEntry())
    ensures OwingOf(EurMoves(4.0), [EurEntry()], 60, 5) == Owing(24.75, 0.0, 1)
    ensures OwingOf(EurMoves(1.0), [EurEntry()], 60, 5) == Owing(0.0, 49.5, 1)
    ensures OwingOf(EurMoves(4.0), [EurEntry()], 60, 65) == Owing(24.75, 0.0, 1)
  {
    assert [EurEntry()][..0] == [];
  }

  /** sEUR is at 2 when exchanged into at time 0, falls in between, is back
      at 2 at time 17 and at the end of the waiting period (time 60), and may
      move anywhere after that: nothing is owed at 17, and nothing at 77. */
  lemma NothingOwedOncePriceReturns(o: Oracle)
    requires EurPricedAt(o, 0, 2.0) && EurPricedAt(o, 17, 2.0) && EurPricedAt(o, 60, 2.0)
    ensures OwingOf(o, [EurEntry()], 60, 17) == Owing(0.0, 0.0, 1)
    ensures OwingOf(o, [EurEntry()], 60, 77) == Owing(0.0, 0.0, 1)
  {
    var q := [EurEntry()];
    assert EffectiveValue(o, SUSD, 100.0, SEUR, 0) == 50.0;
    assert RecordedAtTradePrice(o, q[0]);
    assert PeriodEnd(q[0], 60, 17) == 17 && PeriodEnd(q[0], 60, 77) == 60;
    NothingOwedWhenNoDrift(o, q, 60, 17);
    NothingOwedWhenNoDrift(o, q, 60, 77);
  }

  /** Two exchanges into sBTC: 100 sEUR at time 0 (sEUR = 2, sBTC = 9000) and
      10 sUSD at time 10 (sBTC = 20000); sEUR moves to 4 at time 5 and sBTC
      to 10000 at time 15. */
  function BtcMoves(): Oracle {
    Oracle((a: Asset, t: Time) =>
             if a == SEUR then (if t < 5 then 2.0 else 4.0)
             else if a == SBTC then (if t < 10 then 9000.0 else if t < 15 then 20000.0 else 10000.0)
             else 1.0,
           (a: Asset, t: Time) => false)
  }

  function BtcQueue(): Queue {
    [Entry(SEUR, 100.0, SBTC, 0.022, 0.01, 0), Entry(SUSD, 10.0, SBTC, 0.000495, 0.01, 10)]
  }

  /** Both entries end in a rebate, and the rebates add up: 0.0176 for the
      first, 0.000495 for the second. Before the second exchange the first
      alone showed a reclaim, which the second exchange left as it was. */
  lemma RebatesAddUpAcrossEntries()
    ensures forall i :: 0 <= i < |BtcQueue()| ==> RecordedAtTradePrice(BtcMoves(), BtcQueue()[i])
    ensures OwingOf(BtcMoves(), BtcQueue()[..1], 60, 10) == Owing(0.0022, 0.0, 1)
    ensures OwingOf(BtcMoves(), BtcQueue(), 60, 10) == Owing(0.0022, 0.0, 2)
    ensures OwingOf(BtcMoves(), BtcQueue(), 60, 15) == Owing(0.0, 0.018095, 2)
  {
    var q := BtcQueue();
    assert q[..1][..0] == [];
    assert q[..|q| - 1] == q[..1];
  }

  /** A market that prices sUSD at 1 and sEUR at `eur` at time `t`. */
  predicate EurPricedAt(o: Oracle, t: Time, eur: Price) {
    o.price(SUSD, t) == 1.0 && o.price(SEUR, t) == eur
  }

  /** What the sEUR entry owes when the waiting period ends with sEUR at
      `eur`: the signed amount is 49.5 - 49.5 * 2 / eur. */
  lemma EurEntryOwing(o: Oracle, eur: Price)
    requires EurPricedAt(o, 60, eur)
    ensures eur == 4.0 ==> OwingOf(o, [EurEntry()], 60, 65) == Owing(24.75, 0.0, 1)
    ensures eur == 1.0 ==> OwingOf(o, [EurEntry()], 60, 65) == Owing(0.0, 49.5, 1)
  {
    AppendSplitsBySign(o, [], EurEntry(), 60, 65);
    assert [] + [EurEntry()] == [EurEntry()];
    assert PeriodEnd(EurEntry(), 60, 65) == 60;
    assert EffectiveValue(o, SUSD, 100.0, SEUR, 60) * eur == 100.0;
  }

  /** The first step of both paths: with sUSD at 1 and sEUR at 2, 100 sUSD
      become 49.5 sEUR (50 less the 1% fee), and the exchange is queued under
      sEUR. */
  lemma ExchangeIntoEur(s0: State, o: Oracle)
    requires s0.config == Config(60, 12, OnePercent())
    requires ExchangeActive(s0.status) && AssetActive(s0.status, SUSD) && AssetActive(s0.status, SEUR)
    requires BalanceOf(s0, 1, SUSD) == 100.0 && BalanceOf(s0, 1, SEUR) == 0.0
    requires QueueOf(s0, 1, SUSD) == [] && QueueOf(s0, 1, SEUR) == [] && QueueOf(s0, 1, SBTC) == []
    requires EurPricedAt(o, 0, 2.0) && !o.stale(SUSD, 0) && !o.stale(SEUR, 0)
    ensures var r := Exchange(s0, o, true, 1, SUSD, 100.0, SEUR, 1, 0);
            && r.Ok?
            && BalanceOf(r.value.state, 1, SEUR) == 49.5
            && BalanceOf(r.value.state, 1, SUSD) == 0.0
            && QueueOf(r.value.state, 1, SEUR) == [EurEntry()]
            && QueueOf(r.value.state, 1, SBTC) == []
            && r.value.state.config == s0.config
            && r.value.state.status == s0.status
  {
    assert EffectiveValue(o, SUSD, 100.0, SEUR, 0) == 50.0;
    ExchangeSucceedsIff(s0, o, 1, SUSD, 100.0, SEUR, 1, 0);
    ExchangeWithNothingToSettle(s0, o, true, 1, SUSD, 100.0, SEUR, 1, 0);
    assert Unchanged(s0, Exchange(s0, o, true, 1, SUSD, 100.0, SEUR, 1, 0).value.state, Holding(1, SBTC));
  }

  /** The reclaim path, second step: sEUR has doubled by the end of the
      waiting period, and at time 65 an exchange of 30 sEUR first settles the
      reclaim of 24.75, then exchanges the 24.75 left, emptying the holding. */
  lemma ExchangeOutAfterReclaim(s1: State, o: Oracle)
    requires s1.config == Config(60, 12, OnePercent())
    requires ExchangeActive(s1.status) && AssetActive(s1.status, SEUR) && AssetActive(s1.status, SBTC)
    requires BalanceOf(s1, 1, SEUR) == 49.5
    requires QueueOf(s1, 1, SEUR) == [EurEntry()] && QueueOf(s1, 1, SBTC) == []
    requires EurPricedAt(o, 60, 4.0) && !o.stale(SEUR, 65) && !o.stale(SBTC, 65)
    ensures var r := Exchange(s1, o, true, 1, SEUR, 30.0, SBTC, 1, 65);
            && r.Ok?
            && BalanceOf(r.value.state, 1, SEUR) == 0.0
            && |r.value.events| == 2
            && r.value.events[..1] == [ExchangeReclaim(1, SEUR, 24.75)]
            && r.value.events[1..] == [SynthExchange(1, SEUR, 24.75, SBTC, r.value.events[1].toAmount, 1)]
  {
    EurEntryOwing(o, 4.0);
    assert MaxSecsLeftInWaitingPeriod(s1, 1, SEUR, 65) == 0;
    var settled := Reconcile(s1, o, 1, SEUR, 65).value;
    assert settled.reclaimed == 24.75;
    assert BalanceOf(settled.state, 1, SEUR) == 24.75;
    ExchangeSucceedsIff(s1, o, 1, SEUR, 30.0, SBTC, 1, 65);
    ExchangeEffects(s1, o, true, 1, SEUR, 30.0, SBTC, 1, 65);
    assert UsableAmount(settled, 1, SEUR, 30.0) == 24.75;
  }

  /** The rebate path, second step: sEUR has halved by the end of the waiting
      period, and at time 65 the rebate of 49.5 is settled first. Asking for
      the 49.5 held before settlement exchanges 99, the holding plus the
      rebate, and empties it; asking for 10 exchanges 10 plus the rebate. */
  lemma ExchangeOutAfterRebate(s1: State, o: Oracle, amount: Amount)
    requires s1.config == Config(60, 12, OnePercent())
    requires ExchangeActive(s1.status) && AssetActive(s1.status, SEUR) && AssetActive(s1.status, SBTC)
    requires BalanceOf(s1, 1, SEUR) == 49.5
    requires QueueOf(s1, 1, SEUR) == [EurEntry()] && QueueOf(s1, 1, SBTC) == []
    requires EurPricedAt(o, 60, 1.0) && !o.stale(SEUR, 65) && !o.stale(SBTC, 65)
    requires amount == 49.5 || amount == 10.0
    ensures var r := Exchange(s1, o, true, 1, SEUR, amount, SBTC, 1, 65);
            && r.Ok?
            && BalanceOf(r.value.state, 1, SEUR) == 49.5 - amount
            && |r.value.events| == 2
            && r.value.events[..1] == [ExchangeRebate(1, SEUR, 49.5)]
            && r.value.events[1..] == [SynthExchange(1, SEUR, amount + 49.5, SBTC, r.value.events[1].toAmount, 1)]
  {
    EurEntryOwing(o, 1.0);
    assert MaxSecsLeftInWaitingPeriod(s1, 1, SEUR, 65) == 0;
    var settled := Reconcile(s1, o, 1, SEUR, 65).value;
    assert settled.refunded == 49.5;
    assert BalanceOf(settled.state, 1, SEUR) == 99.0;
    ExchangeSucceedsIff(s1, o, 1, SEUR, amount, SBTC, 1, 65);
    ExchangeEffects(s1, o, true, 1, SEUR, amount, SBTC, 1, 65);
    assert UsableAmount(settled, 1, SEUR, amount) == amount + 49.5;
  }

  /** The reclaim path end to end: 100 sUSD into sEUR at time 0, sEUR at 4
      by time 60, then 30 sEUR into sBTC at time 65 leaves no sEUR. */
  lemma ReclaimPathEmptiesHolding(s0: State, o: Oracle)
    requires s0.config == Config(60, 12, OnePercent())
    requires ExchangeActive(s0.status) && AssetActive(s0.status, SUSD) && AssetActive(s0.status, SEUR)
    requires AssetActive(s0.status, SBTC)
    requires BalanceOf(s0, 1, SUSD) == 100.0 && BalanceOf(s0, 1, SEUR) == 0.0
    requires QueueOf(s0, 1, SUSD) == [] && QueueOf(s0, 1, SEUR) == [] && QueueOf(s0, 1, SBTC) == []
    requires EurPricedAt(o, 0, 2.0) && !o.stale(SUSD, 0) && !o.stale(SEUR, 0)
    requires EurPricedAt(o, 60, 4.0) && !o.stale(SEUR, 65) && !o.stale(SBTC, 65)
    ensures Exchange(s0, o, true, 1, SUSD, 100.0, SEUR, 1, 0).Ok?
    ensures var s1 := Exchange(s0, o, true, 1, SUSD, 100.0, SEUR, 1, 0).value.state;
            var r := Exchange(s1, o, true, 1, SEUR, 30.0, SBTC, 1, 65);
            r.Ok? && BalanceOf(r.value.state, 1, SEUR) == 0.0
  {
    ExchangeIntoEur(s0, o);
    ExchangeOutAfterReclaim(Exchange(s0, o, true, 1, SUSD, 100.0, SEUR, 1, 0).value.state, o);
  }
}
