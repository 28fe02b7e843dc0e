/** Properties of the engine that relate several operations, or an operation
    and the state around it: what an exchange touches, how the waiting period
    gates settlement and exchanges out, what settlement leaves behind, and the
    validity of the settlement queues that every operation preserves. */
module EngineProperties {
  import opened Types
  import opened Prices
  import opened FeeRates
  import opened SettlementQueue
  import opened Reconciler
  import opened Exchanger

  // ---------------------------------------------------------------- validity

  /** Every entry of the (account, asset) queue is an exchange into that asset,
      made no later than `now`, and recorded at the price of its own moment. */
  ghost predicate QueueRecorded(o: Oracle, h: Holding, q: Queue, now: Time) {
    forall i :: 0 <= i < |q| ==> q[i].dest == h.asset && q[i].timestamp <= now && RecordedAtTradePrice(o, q[i])
  }

  /** The state invariant: every settlement queue is well recorded. */
  ghost predicate Valid(s: State, o: Oracle, now: Time) {
    forall h: Holding :: QueueRecorded(o, h, QueueOf(s, h.account, h.asset), now)
  }

  /** The entry an exchange appends is recorded at its own trade price. */
  lemma SwapEntryRecorded(o: Oracle, table: FeeTable, amount: Amount, src: Asset, dest: Asset, now: Time)
    ensures var a := GetAmountsForExchange(o, table, amount, src, dest, now);
            RecordedAtTradePrice(o, Entry(src, amount, dest, a.amountReceived, a.exchangeFeeRate, now))
  {
    var a := GetAmountsForExchange(o, table, amount, src, dest, now);
    var v := EffectiveValue(o, src, amount, dest, now);
    assert a.amountReceived == v - v * a.exchangeFeeRate == v * (1.0 - a.exchangeFeeRate);
  }

  // ---------------------------------------------------------------- exchange

  /** Everything a successful exchange does. It first settles the source
      queue, then debits exactly the usable amount (the request adjusted by
      `calculateAmountAfterSettlement` when anything was settled), credits the
      amount received, records the fee, queues the exchange under the
      recipient's destination queue and emits the settlement events followed by
      one exchange event. Nothing outside the two holdings involved changes. */
  lemma ExchangeEffects(s: State, o: Oracle, viaLedger: bool, from: Account, src: Asset, amount: Amount,
                        dest: Asset, recipient: Account, now: Time)
    requires Exchange(s, o, viaLedger, from, src, amount, dest, recipient, now).Ok?
    ensures viaLedger && ExchangeActive(s.status) && AssetActive(s.status, src) && AssetActive(s.status, dest)
    ensures !o.stale(src, now) && !o.stale(dest, now)
    ensures MaxSecsLeftInWaitingPeriod(s, from, src, now) == 0
    ensures Reconcile(s, o, from, src, now).Ok?
    ensures var out := Exchange(s, o, viaLedger, from, src, amount, dest, recipient, now).value;
            var settled := Reconcile(s, o, from, src, now).value;
            var usable := UsableAmount(settled, from, src, amount);
            var a := GetAmountsForExchange(o, s.config.fees, usable, src, dest, now);
            && out.events == settled.events + [SynthExchange(from, src, usable, dest, a.amountReceived, recipient)]
            && a.amountReceived + a.fee == EffectiveValue(o, src, usable, dest, now)
            && FeesRecordedFor(out.state, dest) == FeesRecordedFor(s, dest) + a.fee
            && OnlyTouches(s, out.state, {Holding(from, src), Holding(recipient, dest)})
            && (Holding(from, src) != Holding(recipient, dest) ==>
                  && BalanceOf(out.state, from, src) == BalanceOf(settled.state, from, src) - usable
                  && BalanceOf(out.state, recipient, dest) == BalanceOf(s, recipient, dest) + a.amountReceived
                  && QueueOf(out.state, from, src) == []
                  && QueueOf(out.state, recipient, dest)
                     == QueueOf(s, recipient, dest) + [Entry(src, usable, dest, a.amountReceived, a.exchangeFeeRate, now)])
  {
    var settled := Reconcile(s, o, from, src, now).value;
    var usable := UsableAmount(settled, from, src, amount);
    var a := GetAmountsForExchange(o, s.config.fees, usable, src, dest, now);
    assert Swap(settled.state, from, src, usable, dest, recipient, now, a).Ok?;
    var out := Swap(settled.state, from, src, usable, dest, recipient, now, a).value;
    if Holding(from, src) != Holding(recipient, dest) {
      assert Unchanged(s, settled.state, Holding(recipient, dest));
    }
    forall h | h !in {Holding(from, src), Holding(recipient, dest)}
      ensures Unchanged(s, out, h)
    {
      assert Unchanged(s, settled.state, h);
      assert Unchanged(settled.state, out, h);
    }
  }

  /** With nothing queued under the source, no settlement takes place and
      exactly the requested amount is exchanged. */
  lemma ExchangeWithNothingToSettle(s: State, o: Oracle, viaLedger: bool, from: Account, src: Asset, amount: Amount,
                                    dest: Asset, recipient: Account, now: Time)
    requires Exchange(s, o, viaLedger, from, src, amount, dest, recipient, now).Ok?
    requires QueueOf(s, from, src) == []
    requires Holding(from, src) != Holding(recipient, dest)
    ensures var out := Exchange(s, o, viaLedger, from, src, amount, dest, recipient, now).value;
            var a := GetAmountsForExchange(o, s.config.fees, amount, src, dest, now);
            && out.events == [SynthExchange(from, src, amount, dest, a.amountReceived, recipient)]
            && BalanceOf(out.state, from, src) == BalanceOf(s, from, src) - amount
            && BalanceOf(out.state, recipient, dest) == BalanceOf(s, recipient, dest) + a.amountReceived
            && QueueOf(out.state, recipient, dest)
               == QueueOf(s, recipient, dest) + [Entry(src, amount, dest, a.amountReceived, a.exchangeFeeRate, now)]
            && OnlyTouches(s, out.state, {Holding(from, src), Holding(recipient, dest)})
  {
    ExchangeEffects(s, o, viaLedger, from, src, amount, dest, recipient, now);
    var settled := Reconcile(s, o, from, src, now).value;
    assert SettlementOwingOf(s, o, from, src, now) == Owing(0.0, 0.0, 0);
    assert settled.numEntries == 0 && settled.events == [];
  }

  /** Right after an exchange into `dest`, the recipient must wait the full
      period before settling it or exchanging out of it; the source queue, just
      settled, has nothing left to wait for. */
  lemma ExchangeStartsWaitingPeriod(s: State, o: Oracle, viaLedger: bool, from: Account, src: Asset, amount: Amount,
                                    dest: Asset, recipient: Account, now: Time)
    requires Valid(s, o, now)
    requires Exchange(s, o, viaLedger, from, src, amount, dest, recipient, now).Ok?
    ensures var out := Exchange(s, o, viaLedger, from, src, amount, dest, recipient, now).value.state;
            && MaxSecsLeftInWaitingPeriod(out, recipient, dest, now) == s.config.waitingPeriodSecs
            && (Holding(from, src) != Holding(recipient, dest) ==>
                  forall t :: MaxSecsLeftInWaitingPeriod(out, from, src, t) == 0)
  {
    ExchangeEffects(s, o, viaLedger, from, src, amount, dest, recipient, now);
    var settled := Reconcile(s, o, from, src, now).value;
    var usable := UsableAmount(settled, from, src, amount);
    var a := GetAmountsForExchange(o, s.config.fees, usable, src, dest, now);
    var out := Exchange(s, o, viaLedger, from, src, amount, dest, recipient, now).value.state;
    var before := QueueOf(settled.state, recipient, dest);
    var e := Entry(src, usable, dest, a.amountReceived, a.exchangeFeeRate, now);
    assert Swap(settled.state, from, src, usable, dest, recipient, now, a).Ok?;
    assert QueueOf(out, recipient, dest) == before + [e];
    if Holding(from, src) == Holding(recipient, dest) {
      assert before == [];
    } else {
      assert before == QueueOf(s, recipient, dest);
      assert QueueRecorded(o, Holding(recipient, dest), QueueOf(s, recipient, dest), now);
    }
    AppendRestartsWaitingPeriod(before, e, s.config.waitingPeriodSecs, now);
  }

  /** Another holder's, or another asset's, waiting period is never affected
      by an exchange. */
  lemma ExchangeLeavesOtherClocksAlone(s: State, o: Oracle, viaLedger: bool, from: Account, src: Asset, amount: Amount,
                                       dest: Asset, recipient: Account, now: Time, account: Account, asset: Asset, t: Time)
    requires Exchange(s, o, viaLedger, from, src, amount, dest, recipient, now).Ok?
    requires Holding(account, asset) != Holding(from, src) && Holding(account, asset) != Holding(recipient, dest)
    ensures var out := Exchange(s, o, viaLedger, from, src, amount, dest, recipient, now).value.state;
            && MaxSecsLeftInWaitingPeriod(out, account, asset, t) == MaxSecsLeftInWaitingPeriod(s, account, asset, t)
            && BalanceOf(out, account, asset) == BalanceOf(s, account, asset)
            && SettlementOwingOf(out, o, account, asset, t) == SettlementOwingOf(s, o, account, asset, t)
  {
    ExchangeEffects(s, o, viaLedger, from, src, amount, dest, recipient, now);
    var out := Exchange(s, o, viaLedger, from, src, amount, dest, recipient, now).value.state;
    assert Unchanged(s, out, Holding(account, asset));
  }

  /** The order of the exchange gates once caller and suspension checks pass:
      a stale source or destination price refuses the exchange, and a source
      queue still inside its waiting period refuses it next. */
  lemma ExchangeGates(s: State, o: Oracle, from: Account, src: Asset, amount: Amount,
                      dest: Asset, recipient: Account, now: Time)
    requires ExchangeActive(s.status) && AssetActive(s.status, src) && AssetActive(s.status, dest)
    ensures o.stale(src, now) || o.stale(dest, now)
            ==> Exchange(s, o, true, from, src, amount, dest, recipient, now) == Err(StaleRate)
    ensures !o.stale(src, now) && !o.stale(dest, now) && MaxSecsLeftInWaitingPeriod(s, from, src, now) > 0
            ==> Exchange(s, o, true, from, src, amount, dest, recipient, now) == Err(WaitingPeriod)
  {
  }

  /** When an exchange that passed every gate still fails: with nothing to
      settle, a request above the balance fails; after a settlement the request
      is capped at the balance, except that a rebate just credited is added on
      top, so a request above the pre-settlement balance then overdraws and
      fails. Otherwise only a full destination queue refuses the exchange. */
  lemma ExchangeSucceedsIff(s: State, o: Oracle, from: Account, src: Asset, amount: Amount,
                            dest: Asset, recipient: Account, now: Time)
    requires ExchangeActive(s.status) && AssetActive(s.status, src) && AssetActive(s.status, dest)
    requires !o.stale(src, now) && !o.stale(dest, now)
    requires MaxSecsLeftInWaitingPeriod(s, from, src, now) == 0
    ensures Reconcile(s, o, from, src, now).Ok?
    ensures var settled := Reconcile(s, o, from, src, now).value;
            var r := Exchange(s, o, true, from, src, amount, dest, recipient, now);
            var overdraws := if |QueueOf(s, from, src)| == 0 then amount > BalanceOf(s, from, src)
                             else settled.refunded > 0.0 && amount > BalanceOf(s, from, src);
            var room := if Holding(from, src) == Holding(recipient, dest) then 0 < s.config.maxEntriesInQueue
                        else |QueueOf(s, recipient, dest)| < s.config.maxEntriesInQueue;
            && (r == Err(InsufficientBalance) <==> overdraws)
            && (r == Err(QueueFull) <==> !overdraws && !room)
            && (r.Ok? <==> !overdraws && room)
  {
    var settled := Reconcile(s, o, from, src, now).value;
    var usable := UsableAmount(settled, from, src, amount);
    var a := GetAmountsForExchange(o, s.config.fees, usable, src, dest, now);
    var b0 := BalanceOf(s, from, src);
    var b1 := BalanceOf(settled.state, from, src);
    if settled.refunded > 0.0 {
      assert b1 == b0 + settled.refunded;
    }
    if Holding(from, src) != Holding(recipient, dest) {
      assert Unchanged(s, settled.state, Holding(recipient, dest));
    }
    assert usable > b1 <==> (if |QueueOf(s, from, src)| == 0 then amount > b0 else settled.refunded > 0.0 && amount > b0);
  }

  /** Exchanging out, after a settlement, at least the whole pre-settlement
      balance leaves nothing of the source asset: after a reclaim the request
      is capped to what is left, after a rebate the rebate goes too. */
  lemma ExchangeAllOutEmptiesBalance(s: State, o: Oracle, viaLedger: bool, from: Account, src: Asset, amount: Amount,
                                     dest: Asset, recipient: Account, now: Time)
    requires Exchange(s, o, viaLedger, from, src, amount, dest, recipient, now).Ok?
    requires Holding(from, src) != Holding(recipient, dest)
    requires |QueueOf(s, from, src)| > 0
    requires amount >= BalanceOf(s, from, src)
    ensures BalanceOf(Exchange(s, o, viaLedger, from, src, amount, dest, recipient, now).value.state, from, src) == 0.0
  {
    ExchangeEffects(s, o, viaLedger, from, src, amount, dest, recipient, now);
    var settled := Reconcile(s, o, from, src, now).value;
    var b0 := BalanceOf(s, from, src);
    var b1 := BalanceOf(settled.state, from, src);
    if settled.refunded > 0.0 {
      ExchangeSucceedsIff(s, o, from, src, amount, dest, recipient, now);
      assert amount == b0;
    } else {
      assert b1 <= b0;
    }
  }

  /** An exchange never leaves the destination queue longer than the limit;
      with the limit at N, each exchange adds exactly one entry. */
  lemma ExchangeQueueGrowsByOne(s: State, o: Oracle, viaLedger: bool, from: Account, src: Asset, amount: Amount,
                                dest: Asset, recipient: Account, now: Time)
    requires Exchange(s, o, viaLedger, from, src, amount, dest, recipient, now).Ok?
    requires Holding(from, src) != Holding(recipient, dest)
    ensures var out := Exchange(s, o, viaLedger, from, src, amount, dest, recipient, now).value.state;
            && |QueueOf(out, recipient, dest)| == |QueueOf(s, recipient, dest)| + 1 <= s.config.maxEntriesInQueue
            && SettlementOwingOf(out, o, recipient, dest, now).numEntries == SettlementOwingOf(s, o, recipient, dest, now).numEntries + 1
  {
    ExchangeEffects(s, o, viaLedger, from, src, amount, dest, recipient, now);
  }

  /** Exchanging into an asset adds no reclaim or rebate at the moment of the
      exchange: the new entry is priced at the current rate. */
  lemma ExchangeAddsNothingOwedNow(s: State, o: Oracle, viaLedger: bool, from: Account, src: Asset, amount: Amount,
                                   dest: Asset, recipient: Account, now: Time)
    requires Exchange(s, o, viaLedger, from, src, amount, dest, recipient, now).Ok?
    requires Holding(from, src) != Holding(recipient, dest)
    ensures var out := Exchange(s, o, viaLedger, from, src, amount, dest, recipient, now).value.state;
            && SettlementOwingOf(out, o, recipient, dest, now).reclaimAmount == SettlementOwingOf(s, o, recipient, dest, now).reclaimAmount
            && SettlementOwingOf(out, o, recipient, dest, now).rebateAmount == SettlementOwingOf(s, o, recipient, dest, now).rebateAmount
  {
    ExchangeEffects(s, o, viaLedger, from, src, amount, dest, recipient, now);
    var settled := Reconcile(s, o, from, src, now).value;
    var usable := UsableAmount(settled, from, src, amount);
    var a := GetAmountsForExchange(o, s.config.fees, usable, src, dest, now);
    SwapEntryRecorded(o, s.config.fees, usable, src, dest, now);
    AppendFreshEntryKeepsOwing(o, QueueOf(s, recipient, dest), Entry(src, usable, dest, a.amountReceived, a.exchangeFeeRate, now),
                               s.config.waitingPeriodSecs);
  }

  /** Exchanges keep the state valid. */
  lemma ExchangeKeepsValid(s: State, o: Oracle, viaLedger: bool, from: Account, src: Asset, amount: Amount,
                           dest: Asset, recipient: Account, now: Time)
    requires Valid(s, o, now)
    requires Exchange(s, o, viaLedger, from, src, amount, dest, recipient, now).Ok?
    ensures Valid(Exchange(s, o, viaLedger, from, src, amount, dest, recipient, now).value.state, o, now)
  {
    ExchangeEffects(s, o, viaLedger, from, src, amount, dest, recipient, now);
    var settled := Reconcile(s, o, from, src, now).value;
    var usable := UsableAmount(settled, from, src, amount);
    var a := GetAmountsForExchange(o, s.config.fees, usable, src, dest, now);
    var out := Exchange(s, o, viaLedger, from, src, amount, dest, recipient, now).value.state;
    var e := Entry(src, usable, dest, a.amountReceived, a.exchangeFeeRate, now);
    assert Swap(settled.state, from, src, usable, dest, recipient, now, a).Ok?;
    SwapEntryRecorded(o, s.config.fees, usable, src, dest, now);
    forall h: Holding ensures QueueRecorded(o, h, QueueOf(out, h.account, h.asset), now) {
      if h == Holding(recipient, dest) {
        var before := QueueOf(settled.state, recipient, dest);
        assert QueueOf(out, recipient, dest) == before + [e];
        if h != Holding(from, src) {
          assert before == QueueOf(s, recipient, dest);
          assert QueueRecorded(o, h, before, now);
        }
      } else if h == Holding(from, src) {
        assert QueueOf(out, h.account, h.asset) == [];
      } else {
        assert Unchanged(s, out, h);
        assert QueueRecorded(o, h, QueueOf(s, h.account, h.asset), now);
      }
    }
  }

  // ---------------------------------------------------------------- settle

  /** Settling a queue that is empty (never exchanged into, the source side of
      an exchange, another holder's asset) always succeeds, emits nothing and
      changes no balance. */
  lemma SettleEmptyQueueIsSilent(s: State, o: Oracle, account: Account, asset: Asset, now: Time)
    requires ExchangeActive(s.status) && AssetActive(s.status, asset)
    requires QueueOf(s, account, asset) == []
    ensures Settle(s, o, account, asset, now).Ok?
    ensures var out := Settle(s, o, account, asset, now).value;
            && out.events == []
            && forall a, k :: BalanceOf(out.state, a, k) == BalanceOf(s, a, k)
  {
    var out := Settle(s, o, account, asset, now).value;
    forall a, k ensures BalanceOf(out.state, a, k) == BalanceOf(s, a, k) {
      if Holding(a, k) != Holding(account, asset) {
        assert Unchanged(s, out.state, Holding(a, k));
      }
    }
  }

  /** Settlement nets the queue's signed total owed against the balance: the
      balance afterwards is the old balance less the net amount owed, floored
      at zero, and nothing is left to owe. */
  lemma SettleAppliesNetOwing(s: State, o: Oracle, account: Account, asset: Asset, now: Time)
    requires Settle(s, o, account, asset, now).Ok?
    ensures var out := Settle(s, o, account, asset, now).value.state;
            var net := NetOwing(o, QueueOf(s, account, asset), s.config.waitingPeriodSecs, now);
            var before := BalanceOf(s, account, asset);
            && BalanceOf(out, account, asset) == (if before >= net then before - net else 0.0)
            && forall t :: SettlementOwingOf(out, o, account, asset, t) == Owing(0.0, 0.0, 0)
  {
    ReclaimsMinusRebatesIsNet(o, QueueOf(s, account, asset), s.config.waitingPeriodSecs, now);
  }

  /** Settlement needs no fresh price: staleness never changes its outcome. */
  lemma SettleIgnoresStaleness(s: State, price: (Asset, Time) -> Price, stale: (Asset, Time) -> bool,
                               stale': (Asset, Time) -> bool, account: Account, asset: Asset, now: Time)
    ensures Settle(s, Oracle(price, stale), account, asset, now)
         == Settle(s, Oracle(price, stale'), account, asset, now)
  {
    OwingIgnoresStaleness(price, stale, stale', QueueOf(s, account, asset), s.config.waitingPeriodSecs, now);
  }

  /** Changing a fee rate after the exchanges were made does not change what
      settlement does: each entry keeps the fee rate charged at trade time. */
  lemma SettleIgnoresLaterFeeChange(s: State, o: Oracle, feeAsset: Asset, rate: FeeRate,
                                    account: Account, asset: Asset, now: Time)
    ensures var s' := SetExchangeFeeRate(s, true, feeAsset, rate).value;
            && SettlementOwingOf(s', o, account, asset, now) == SettlementOwingOf(s, o, account, asset, now)
            && Settle(s', o, account, asset, now).Ok? == Settle(s, o, account, asset, now).Ok?
            && (Settle(s, o, account, asset, now).Ok? ==>
                  && Settle(s', o, account, asset, now).value.events == Settle(s, o, account, asset, now).value.events
                  && Settle(s', o, account, asset, now).value.state.balances == Settle(s, o, account, asset, now).value.state.balances)
  {
  }

  /** Price moves after every entry's waiting period has ended do not change
      what settlement owes. */
  lemma SettlementOwingFrozenAfterPeriod(s: State, o: Oracle, account: Account, asset: Asset, now: Time, later: Time)
    requires MaxSecsLeftInWaitingPeriod(s, account, asset, now) == 0
    requires now <= later
    ensures SettlementOwingOf(s, o, account, asset, later) == SettlementOwingOf(s, o, account, asset, now)
  {
    MatureIffEveryEntryElapsed(QueueOf(s, account, asset), s.config.waitingPeriodSecs, now);
    OwingFrozenAfterPeriod(o, QueueOf(s, account, asset), s.config.waitingPeriodSecs, now, later);
  }

  /** Settling keeps the state valid. */
  lemma SettleKeepsValid(s: State, o: Oracle, account: Account, asset: Asset, now: Time)
    requires Valid(s, o, now)
    requires Settle(s, o, account, asset, now).Ok?
    ensures Valid(Settle(s, o, account, asset, now).value.state, o, now)
  {
    var out := Settle(s, o, account, asset, now).value.state;
    forall h: Holding ensures QueueRecorded(o, h, QueueOf(out, h.account, h.asset), now) {
      if h != Holding(account, asset) {
        assert Unchanged(s, out, h);
        assert QueueRecorded(o, h, QueueOf(s, h.account, h.asset), now);
      }
    }
  }
}
