/** Settlement reconciliation: each queued exchange is replayed at the price
    reached at the end of its waiting period, and the difference between what
    was received and what should have been received is owed back (a reclaim)
    or owed to the holder (a rebate). */
module Reconciler {
  import opened Types
  import opened Prices
  import opened SettlementQueue

  /** The moment whose prices settle an entry: the end of its waiting period,
      or now while the period is still running. Later price moves are ignored. */
  function PeriodEnd(e: Entry, waitingPeriodSecs: nat, now: Time): Time {
    if now <= e.timestamp + waitingPeriodSecs then now else e.timestamp + waitingPeriodSecs
  }

  /** What the entry would have yielded at the period-end price, under the fee
      rate charged at trade time (not the current one). */
  function AmountShouldHaveReceived(o: Oracle, e: Entry, waitingPeriodSecs: nat, now: Time): Amount {
    EffectiveValue(o, e.src, e.amount, e.dest, PeriodEnd(e, waitingPeriodSecs, now)) * (1.0 - e.feeRate)
  }

  /** Signed amount owed back by the holder for one entry: positive when the
      holder received too much, negative when too little. */
  function EntryOwing(o: Oracle, e: Entry, waitingPeriodSecs: nat, now: Time): real {
    e.amountReceived - AmountShouldHaveReceived(o, e, waitingPeriodSecs, now)
  }

  /** An entry as the exchange records it: received the value at the price of
      its own moment, less the fee at its own fee rate. */
  ghost predicate RecordedAtTradePrice(o: Oracle, e: Entry) {
    e.amountReceived == EffectiveValue(o, e.src, e.amount, e.dest, e.timestamp) * (1.0 - e.feeRate)
  }

  /** For a recorded entry the amount owed is the amount after fee times the
      drift of the src/dest rate: `amount * (1 - feeRate) * (rateAtTrade - rateLater)`. */
  lemma EntryOwingIsRateDrift(o: Oracle, e: Entry, waitingPeriodSecs: nat, now: Time)
    requires RecordedAtTradePrice(o, e)
    ensures EntryOwing(o, e, waitingPeriodSecs, now)
         == e.amount * (1.0 - e.feeRate)
            * (Rate(o, e.src, e.dest, e.timestamp) - Rate(o, e.src, e.dest, PeriodEnd(e, waitingPeriodSecs, now)))
  {
    var t := PeriodEnd(e, waitingPeriodSecs, now);
    var k := e.amount * (1.0 - e.feeRate);
    calc {
      EntryOwing(o, e, waitingPeriodSecs, now);
      e.amount * Rate(o, e.src, e.dest, e.timestamp) * (1.0 - e.feeRate)
        - e.amount * Rate(o, e.src, e.dest, t) * (1.0 - e.feeRate);
      k * Rate(o, e.src, e.dest, e.timestamp) - k * Rate(o, e.src, e.dest, t);
    }
  }

  /** An entry queried at the moment it was made owes nothing either way. */
  lemma FreshEntryOwesNothing(o: Oracle, e: Entry, waitingPeriodSecs: nat)
    requires RecordedAtTradePrice(o, e)
    ensures EntryOwing(o, e, waitingPeriodSecs, e.timestamp) == 0.0
  {
  }

  /** The reclaim side: sum over the queue of the positive amounts owed. */
  function Reclaims(o: Oracle, q: Queue, waitingPeriodSecs: nat, now: Time): Amount
    decreases |q|
  {
    if |q| == 0 then 0.0
    else
      var d := EntryOwing(o, q[|q| - 1], waitingPeriodSecs, now);
      Reclaims(o, q[..|q| - 1], waitingPeriodSecs, now) + (if d > 0.0 then d else 0.0)
  }

  /** The rebate side: sum over the queue of the magnitudes of the negative
      amounts owed. */
  function Rebates(o: Oracle, q: Queue, waitingPeriodSecs: nat, now: Time): Amount
    decreases |q|
  {
    if |q| == 0 then 0.0
    else
      var d := EntryOwing(o, q[|q| - 1], waitingPeriodSecs, now);
      Rebates(o, q[..|q| - 1], waitingPeriodSecs, now) + (if d < 0.0 then -d else 0.0)
  }

  /** The signed total owed by the holder over the whole queue. */
  function NetOwing(o: Oracle, q: Queue, waitingPeriodSecs: nat, now: Time): real
    decreases |q|
  {
    if |q| == 0 then 0.0
    else NetOwing(o, q[..|q| - 1], waitingPeriodSecs, now) + EntryOwing(o, q[|q| - 1], waitingPeriodSecs, now)
  }

  /** The result of `settlementOwing`. */
  datatype Owing = Owing(reclaimAmount: Amount, rebateAmount: Amount, numEntries: nat)

  /** Replays every entry of the queue and accumulates reclaims and rebates in
      two separate totals; entries of opposite sign do not cancel here. */
  method SettlementOwing(o: Oracle, q: Queue, waitingPeriodSecs: nat, now: Time) returns (r: Owing)
    ensures r.numEntries == |q|
    ensures r.reclaimAmount == Reclaims(o, q, waitingPeriodSecs, now)
    ensures r.rebateAmount == Rebates(o, q, waitingPeriodSecs, now)
  {
    var reclaim: Amount := 0.0;
    var rebate: Amount := 0.0;
    var i := 0;
    while i < |q|
      invariant 0 <= i <= |q|
      invariant reclaim == Reclaims(o, q[..i], waitingPeriodSecs, now)
      invariant rebate == Rebates(o, q[..i], waitingPeriodSecs, now)
    {
      var shouldHave := AmountShouldHaveReceived(o, q[i], waitingPeriodSecs, now);
      assert q[..i + 1][..i] == q[..i];
      if q[i].amountReceived > shouldHave {
        reclaim := reclaim + (q[i].amountReceived - shouldHave);
      } else if shouldHave > q[i].amountReceived {
        rebate := rebate + (shouldHave - q[i].amountReceived);
      }
      i := i + 1;
    }
    assert q[..|q|] == q;
    r := Owing(reclaim, rebate, |q|);
  }

  /** The functional form of `settlementOwing`, used by the engine. */
  function OwingOf(o: Oracle, q: Queue, waitingPeriodSecs: nat, now: Time): Owing {
    Owing(Reclaims(o, q, waitingPeriodSecs, now), Rebates(o, q, waitingPeriodSecs, now), |q|)
  }

  /** Reclaim minus rebate is the signed total owed: the two sums split every
      entry's amount owed by sign. */
  lemma {:induction false} ReclaimsMinusRebatesIsNet(o: Oracle, q: Queue, waitingPeriodSecs: nat, now: Time)
    ensures Reclaims(o, q, waitingPeriodSecs, now) - Rebates(o, q, waitingPeriodSecs, now)
         == NetOwing(o, q, waitingPeriodSecs, now)
    decreases |q|
  {
    if |q| > 0 {
      ReclaimsMinusRebatesIsNet(o, q[..|q| - 1], waitingPeriodSecs, now);
    }
  }

  /** A new entry adds its positive part to the reclaim total and its negative
      part to the rebate total, and leaves the rest of the sums alone. */
  lemma AppendSplitsBySign(o: Oracle, q: Queue, e: Entry, waitingPeriodSecs: nat, now: Time)
    ensures var d := EntryOwing(o, e, waitingPeriodSecs, now);
            && Reclaims(o, q + [e], waitingPeriodSecs, now) == Reclaims(o, q, waitingPeriodSecs, now) + (if d > 0.0 then d else 0.0)
            && Rebates(o, q + [e], waitingPeriodSecs, now) == Rebates(o, q, waitingPeriodSecs, now) + (if d < 0.0 then -d else 0.0)
  {
    assert (q + [e])[..|q|] == q;
  }

  /** Appending an exchange made now does not change what the queue owes now. */
  lemma AppendFreshEntryKeepsOwing(o: Oracle, q: Queue, e: Entry, waitingPeriodSecs: nat)
    requires RecordedAtTradePrice(o, e)
    ensures OwingOf(o, q + [e], waitingPeriodSecs, e.timestamp).reclaimAmount == OwingOf(o, q, waitingPeriodSecs, e.timestamp).reclaimAmount
    ensures OwingOf(o, q + [e], waitingPeriodSecs, e.timestamp).rebateAmount == OwingOf(o, q, waitingPeriodSecs, e.timestamp).rebateAmount
    ensures OwingOf(o, q + [e], waitingPeriodSecs, e.timestamp).numEntries == |q| + 1
  {
    AppendSplitsBySign(o, q, e, waitingPeriodSecs, e.timestamp);
  }

  /** Once every entry's waiting period has ended, later price moves change
      nothing: the amounts owed are the same at any two later moments. */
  lemma {:induction false} OwingFrozenAfterPeriod(o: Oracle, q: Queue, waitingPeriodSecs: nat, now: Time, later: Time)
    requires forall i :: 0 <= i < |q| ==> q[i].timestamp + waitingPeriodSecs <= now
    requires now <= later
    ensures OwingOf(o, q, waitingPeriodSecs, later) == OwingOf(o, q, waitingPeriodSecs, now)
    decreases |q|
  {
    if |q| > 0 {
      var p := q[..|q| - 1];
      assert forall i :: 0 <= i < |p| ==> p[i] == q[i];
      OwingFrozenAfterPeriod(o, p, waitingPeriodSecs, now, later);
      assert PeriodEnd(q[|q| - 1], waitingPeriodSecs, later) == PeriodEnd(q[|q| - 1], waitingPeriodSecs, now);
    }
  }

  /** If no entry's src/dest rate has drifted between its trade and the end
      of its waiting period, nothing is owed either way. */
  lemma {:induction false} NothingOwedWhenNoDrift(o: Oracle, q: Queue, waitingPeriodSecs: nat, now: Time)
    requires forall i :: 0 <= i < |q| ==> RecordedAtTradePrice(o, q[i])
    requires forall i :: 0 <= i < |q| ==>
               Rate(o, q[i].src, q[i].dest, q[i].timestamp) == Rate(o, q[i].src, q[i].dest, PeriodEnd(q[i], waitingPeriodSecs, now))
    ensures OwingOf(o, q, waitingPeriodSecs, now) == Owing(0.0, 0.0, |q|)
    decreases |q|
  {
    if |q| > 0 {
      var p := q[..|q| - 1];
      assert forall i :: 0 <= i < |p| ==> p[i] == q[i];
      NothingOwedWhenNoDrift(o, p, waitingPeriodSecs, now);
      EntryOwingIsRateDrift(o, q[|q| - 1], waitingPeriodSecs, now);
    }
  }

  /** Only prices enter the reconciliation: whether a price is stale plays no
      part, so settlement can go ahead on stale prices. */
  lemma {:induction false} OwingIgnoresStaleness(price: (Asset, Time) -> Price, stale: (Asset, Time) -> bool,
                                                 stale': (Asset, Time) -> bool, q: Queue, waitingPeriodSecs: nat, now: Time)
    ensures OwingOf(Oracle(price, stale), q, waitingPeriodSecs, now) == OwingOf(Oracle(price, stale'), q, waitingPeriodSecs, now)
    decreases |q|
  {
    if |q| > 0 {
      OwingIgnoresStaleness(price, stale, stale', q[..|q| - 1], waitingPeriodSecs, now);
    }
  }
}
