/** The exchange-and-settlement engine: holders exchange one synthetic asset
    for another at oracle prices, pay the destination's fee, and every
    exchange is queued for settlement once its waiting period is over. All
    operations are pure functions from a state to a new state (or an error,
    in which case nothing changes). */
module Exchanger {
  import opened Types
  import opened Prices
  import opened FeeRates
  import opened SettlementQueue
  import opened Reconciler

  /** Owner-set configuration, read atomically by every operation. */
  datatype Config = Config(waitingPeriodSecs: nat, maxEntriesInQueue: nat, fees: FeeTable)

  /** The suspension registry (an outside collaborator, read-only here). */
  datatype Status = Status(systemSuspended: bool, exchangeSuspended: bool, suspendedAssets: set<Asset>)

  /** Everything the engine reads or writes. `approvals` holds the
      (authoriser, delegate) pairs of the delegate-approval registry;
      `feesRecorded` is the fee sink, per destination asset. */
  datatype State = State(
    config: Config,
    status: Status,
    balances: map<Holding, Amount>,
    queues: map<Holding, Queue>,
    feesRecorded: map<Asset, Amount>,
    approvals: set<(Account, Account)>)

  datatype Event =
    | ExchangeReclaim(account: Account, asset: Asset, amount: Amount)
    | ExchangeRebate(account: Account, asset: Asset, amount: Amount)
    | SynthExchange(account: Account, fromAsset: Asset, fromAmount: Amount,
                    toAsset: Asset, toAmount: Amount, toAddress: Account)

  /** A completed operation: the new state and the events it emitted. */
  datatype Outcome = Outcome(state: State, events: seq<Event>)

  // ---------------------------------------------------------------- ledger

  function BalanceOf(s: State, account: Account, asset: Asset): Amount {
    var h := Holding(account, asset);
    if h in s.balances then s.balances[h] else 0.0
  }

  function QueueOf(s: State, account: Account, asset: Asset): Queue {
    var h := Holding(account, asset);
    if h in s.queues then s.queues[h] else []
  }

  function FeesRecordedFor(s: State, asset: Asset): Amount {
    if asset in s.feesRecorded then s.feesRecorded[asset] else 0.0
  }

  function WithBalance(s: State, account: Account, asset: Asset, b: Amount): State {
    s.(balances := s.balances[Holding(account, asset) := b])
  }

  function WithQueue(s: State, account: Account, asset: Asset, q: Queue): State {
    s.(queues := s.queues[Holding(account, asset) := q])
  }

  /** The balance and the queue of `h` are the same in both states. */
  ghost predicate Unchanged(s: State, s': State, h: Holding) {
    && BalanceOf(s', h.account, h.asset) == BalanceOf(s, h.account, h.asset)
    && QueueOf(s', h.account, h.asset) == QueueOf(s, h.account, h.asset)
  }

  /** Only the holdings in `touched` may differ; configuration, suspension
      status and approvals never change. */
  ghost predicate OnlyTouches(s: State, s': State, touched: set<Holding>) {
    && s'.config == s.config
    && s'.status == s.status
    && s'.approvals == s.approvals
    && forall h :: h !in touched ==> Unchanged(s, s', h)
  }

  /** Burns `amount` of `asset` from `account`; fails rather than go negative. */
  function Debit(s: State, account: Account, asset: Asset, amount: Amount): (r: Result<State>)
    ensures r.Ok? <==> amount <= BalanceOf(s, account, asset)
    ensures r.Err? ==> r.error == InsufficientBalance
    ensures r.Ok? ==> BalanceOf(r.value, account, asset) + amount == BalanceOf(s, account, asset)
    ensures r.Ok? ==> r.value.queues == s.queues && r.value.feesRecorded == s.feesRecorded
    ensures r.Ok? ==> OnlyTouches(s, r.value, {Holding(account, asset)})
  {
    var b := BalanceOf(s, account, asset);
    if amount <= b then Ok(WithBalance(s, account, asset, b - amount)) else Err(InsufficientBalance)
  }

  /** Issues `amount` of `asset` to `account`. */
  function Credit(s: State, account: Account, asset: Asset, amount: Amount): (s': State)
    ensures BalanceOf(s', account, asset) == BalanceOf(s, account, asset) + amount
    ensures s'.queues == s.queues && s'.feesRecorded == s.feesRecorded
    ensures OnlyTouches(s, s', {Holding(account, asset)})
  {
    WithBalance(s, account, asset, BalanceOf(s, account, asset) + amount)
  }

  /** Hands a fee to the fee-distribution sink (only when there is one). */
  function RecordFee(s: State, asset: Asset, fee: Amount): (s': State)
    ensures FeesRecordedFor(s', asset) == FeesRecordedFor(s, asset) + fee
    ensures forall a :: a != asset ==> FeesRecordedFor(s', a) == FeesRecordedFor(s, a)
    ensures s'.balances == s.balances && s'.queues == s.queues
    ensures OnlyTouches(s, s', {})
  {
    if fee > 0.0 then s.(feesRecorded := s.feesRecorded[asset := FeesRecordedFor(s, asset) + fee]) else s
  }

  // ---------------------------------------------------------------- queries

  /** Seconds before `account` may settle, or exchange out of, `asset`. */
  function MaxSecsLeftInWaitingPeriod(s: State, account: Account, asset: Asset, now: Time): nat {
    SecsLeftInWaitingPeriod(QueueOf(s, account, asset), s.config.waitingPeriodSecs, now)
  }

  /** `settlementOwing(account, asset)`. */
  function SettlementOwingOf(s: State, o: Oracle, account: Account, asset: Asset, now: Time): Owing {
    OwingOf(o, QueueOf(s, account, asset), s.config.waitingPeriodSecs, now)
  }

  /** The amount that may leave `account`'s `asset` balance after settlement:
      the request capped at the balance, plus the rebate just settled. */
  function CalculateAmountAfterSettlement(s: State, account: Account, asset: Asset, amount: Amount, refunded: Amount): (r: Amount)
    ensures r >= refunded
    ensures r - refunded <= amount && r - refunded <= BalanceOf(s, account, asset)
    ensures r - refunded == amount || r - refunded == BalanceOf(s, account, asset)
  {
    var balance := BalanceOf(s, account, asset);
    var capped := if amount > balance then balance else amount;
    if refunded > 0.0 then capped + refunded else capped
  }

  // ---------------------------------------------------------------- gates

  predicate ExchangeActive(st: Status) {
    !st.systemSuspended && !st.exchangeSuspended
  }

  predicate AssetActive(st: Status, a: Asset) {
    a !in st.suspendedAssets
  }

  // ---------------------------------------------------------------- settlement

  /** What one settlement pass did. */
  datatype Settlement = Settlement(state: State, reclaimed: Amount, refunded: Amount, numEntries: nat, events: seq<Event>)

  /** Settles the (account, asset) queue if its waiting period is over: the
      reclaim and rebate totals are netted, only the difference is applied to
      the balance (a reclaim never drives it below zero), and the queue is
      emptied whatever the outcome. */
  function Reconcile(s: State, o: Oracle, account: Account, asset: Asset, now: Time): (r: Result<Settlement>)
    ensures r.Err? <==> MaxSecsLeftInWaitingPeriod(s, account, asset, now) > 0
    ensures r.Err? ==> r.error == WaitingPeriod
    ensures r.Ok? ==>
      var owing := SettlementOwingOf(s, o, account, asset, now);
      var before := BalanceOf(s, account, asset);
      var st := r.value;
      && QueueOf(st.state, account, asset) == []
      && st.numEntries == |QueueOf(s, account, asset)|
      // the net of reclaim and rebate is applied, flooring the balance at zero
      && BalanceOf(st.state, account, asset)
         == (if before + owing.rebateAmount >= owing.reclaimAmount
             then before + owing.rebateAmount - owing.reclaimAmount else 0.0)
      && BalanceOf(st.state, account, asset) == before - st.reclaimed + st.refunded
      && st.refunded == (if owing.rebateAmount > owing.reclaimAmount then owing.rebateAmount - owing.reclaimAmount else 0.0)
      && (st.refunded > 0.0 ==> st.reclaimed == 0.0)
      // one reclaim or one rebate event, or none when the totals balance
      && (st.events == [] <==> owing.reclaimAmount == owing.rebateAmount)
      && (owing.reclaimAmount > owing.rebateAmount ==> st.events == [ExchangeReclaim(account, asset, st.reclaimed)])
      && (owing.rebateAmount > owing.reclaimAmount ==> st.events == [ExchangeRebate(account, asset, st.refunded)])
      && st.state.feesRecorded == s.feesRecorded
      && OnlyTouches(s, st.state, {Holding(account, asset)})
  {
    if MaxSecsLeftInWaitingPeriod(s, account, asset, now) > 0 then Err(WaitingPeriod)
    else
      var owing := SettlementOwingOf(s, o, account, asset, now);
      var balance := BalanceOf(s, account, asset);
      var cleared := WithQueue(s, account, asset, []);
      if owing.reclaimAmount > owing.rebateAmount then
        var reclaimed := Min(owing.reclaimAmount - owing.rebateAmount, balance);
        Ok(Settlement(WithBalance(cleared, account, asset, balance - reclaimed), reclaimed, 0.0,
                      owing.numEntries, [ExchangeReclaim(account, asset, reclaimed)]))
      else if owing.rebateAmount > owing.reclaimAmount then
        var refunded := owing.rebateAmount - owing.reclaimAmount;
        Ok(Settlement(WithBalance(cleared, account, asset, balance + refunded), 0.0, refunded,
                      owing.numEntries, [ExchangeRebate(account, asset, refunded)]))
      else
        Ok(Settlement(cleared, 0.0, 0.0, owing.numEntries, []))
  }

  /** `settle(asset)` on behalf of `account`, whoever calls it. Stale prices
      do not block it. */
  function Settle(s: State, o: Oracle, account: Account, asset: Asset, now: Time): (r: Result<Outcome>)
    ensures !(ExchangeActive(s.status) && AssetActive(s.status, asset)) ==> r == Err(Suspended)
    // past the suspension gate, settle fails exactly while the queue is waiting
    ensures ExchangeActive(s.status) && AssetActive(s.status, asset) ==>
              (r.Ok? <==> MaxSecsLeftInWaitingPeriod(s, account, asset, now) == 0)
              && (r.Err? ==> r.error == WaitingPeriod)
    ensures r.Ok? ==>
      && QueueOf(r.value.state, account, asset) == []
      && MaxSecsLeftInWaitingPeriod(r.value.state, account, asset, now) == 0
      && OnlyTouches(s, r.value.state, {Holding(account, asset)})
  {
    if !(ExchangeActive(s.status) && AssetActive(s.status, asset)) then Err(Suspended)
    else
      var settled :- Reconcile(s, o, account, asset, now);
      Ok(Outcome(settled.state, settled.events))
  }

  // ---------------------------------------------------------------- exchange

  /** The amount actually exchanged: when a settlement took place, the request
      adjusted by `calculateAmountAfterSettlement`; otherwise the request. */
  function UsableAmount(settled: Settlement, from: Account, src: Asset, amount: Amount): Amount {
    if settled.numEntries > 0 then CalculateAmountAfterSettlement(settled.state, from, src, amount, settled.refunded)
    else amount
  }

  /** Burns `amount` of `src` from `from`, issues the amount received of `dest`
      to `recipient`, hands the fee to the sink and queues the exchange for
      settlement under (recipient, dest). */
  function Swap(s: State, from: Account, src: Asset, amount: Amount, dest: Asset, recipient: Account,
                now: Time, amounts: ExchangeAmounts): (r: Result<State>)
    ensures r.Ok? <==> amount <= BalanceOf(s, from, src) && |QueueOf(s, recipient, dest)| < s.config.maxEntriesInQueue
    ensures r.Err? ==> r.error == (if amount <= BalanceOf(s, from, src) then QueueFull else InsufficientBalance)
    ensures r.Ok? ==>
      var s' := r.value;
      && QueueOf(s', recipient, dest)
         == QueueOf(s, recipient, dest) + [Entry(src, amount, dest, amounts.amountReceived, amounts.exchangeFeeRate, now)]
      && (Holding(from, src) != Holding(recipient, dest) ==>
            && BalanceOf(s', from, src) == BalanceOf(s, from, src) - amount
            && BalanceOf(s', recipient, dest) == BalanceOf(s, recipient, dest) + amounts.amountReceived
            && QueueOf(s', from, src) == QueueOf(s, from, src))
      && (Holding(from, src) == Holding(recipient, dest) ==>
            BalanceOf(s', from, src) == BalanceOf(s, from, src) - amount + amounts.amountReceived)
      && FeesRecordedFor(s', dest) == FeesRecordedFor(s, dest) + amounts.fee
      && (forall a :: a != dest ==> FeesRecordedFor(s', a) == FeesRecordedFor(s, a))
      && OnlyTouches(s, s', {Holding(from, src), Holding(recipient, dest)})
  {
    var debited :- Debit(s, from, src, amount);
    var credited := Credit(debited, recipient, dest, amounts.amountReceived);
    var withFee := RecordFee(credited, dest, amounts.fee);
    var entry := Entry(src, amount, dest, amounts.amountReceived, amounts.exchangeFeeRate, now);
    var q :- Enqueue(QueueOf(withFee, recipient, dest), entry, withFee.config.maxEntriesInQueue);
    Ok(WithQueue(withFee, recipient, dest, q))
  }

  /** The exchange itself, once the caller and suspension gates have passed:
      refuses stale prices, settles the source queue (failing while it is
      waiting), then swaps the usable amount. */
  function Execute(s: State, o: Oracle, from: Account, src: Asset, amount: Amount, dest: Asset,
                   recipient: Account, now: Time): Result<Outcome>
  {
    if o.stale(src, now) || o.stale(dest, now) then Err(StaleRate)
    else
      var settled :- Reconcile(s, o, from, src, now);
      var usable := UsableAmount(settled, from, src, amount);
      var amounts := GetAmountsForExchange(o, s.config.fees, usable, src, dest, now);
      var swapped :- Swap(settled.state, from, src, usable, dest, recipient, now, amounts);
      Ok(Outcome(swapped, settled.events + [SynthExchange(from, src, usable, dest, amounts.amountReceived, recipient)]))
  }

  /** `exchange(src, amount, dest)` by `from`, paying out to `recipient`. */
  function Exchange(s: State, o: Oracle, viaLedger: bool, from: Account, src: Asset, amount: Amount,
                    dest: Asset, recipient: Account, now: Time): (r: Result<Outcome>)
    ensures !viaLedger ==> r == Err(Unauthorized)
    ensures viaLedger && !(ExchangeActive(s.status) && AssetActive(s.status, src) && AssetActive(s.status, dest))
            ==> r == Err(Suspended)
    ensures r.Ok? ==> |QueueOf(r.value.state, recipient, dest)| <= s.config.maxEntriesInQueue
  {
    if !viaLedger then Err(Unauthorized)
    else if !(ExchangeActive(s.status) && AssetActive(s.status, src) && AssetActive(s.status, dest)) then Err(Suspended)
    else Execute(s, o, from, src, amount, dest, recipient, now)
  }

  /** `exchangeOnBehalf`: `delegate` exchanges the authoriser's `src` into
      `dest`; balances, queue and proceeds are the authoriser's. */
  function ExchangeOnBehalf(s: State, o: Oracle, viaLedger: bool, authoriser: Account, delegate: Account,
                            src: Asset, amount: Amount, dest: Asset, now: Time): (r: Result<Outcome>)
    ensures !viaLedger ==> r == Err(Unauthorized)
    ensures viaLedger && !(ExchangeActive(s.status) && AssetActive(s.status, src) && AssetActive(s.status, dest))
            ==> r == Err(Suspended)
    // once the gates pass, an approved delegate gets exactly the authoriser's own exchange
    ensures viaLedger && ExchangeActive(s.status) && AssetActive(s.status, src) && AssetActive(s.status, dest) ==>
              r == (if (authoriser, delegate) in s.approvals
                    then Exchange(s, o, true, authoriser, src, amount, dest, authoriser, now)
                    else Err(NotApproved))
  {
    if !viaLedger then Err(Unauthorized)
    else if !(ExchangeActive(s.status) && AssetActive(s.status, src) && AssetActive(s.status, dest)) then Err(Suspended)
    else if (authoriser, delegate) !in s.approvals then Err(NotApproved)
    else Execute(s, o, authoriser, src, amount, dest, authoriser, now)
  }

  // ---------------------------------------------------------------- configuration

  function SetWaitingPeriodSecs(s: State, isOwner: bool, secs: nat): (r: Result<State>)
    ensures r.Ok? <==> isOwner
    ensures r.Err? ==> r.error == Unauthorized
    ensures r.Ok? ==>
      && r.value.config.waitingPeriodSecs == secs
      && r.value.config.maxEntriesInQueue == s.config.maxEntriesInQueue
      && r.value.config.fees == s.config.fees
      // nothing outside the configuration changes
      && r.value.(config := s.config) == s
  {
    if isOwner then Ok(s.(config := s.config.(waitingPeriodSecs := secs))) else Err(Unauthorized)
  }

  function SetMaxEntriesInQueue(s: State, isOwner: bool, n: nat): (r: Result<State>)
    ensures r.Ok? <==> isOwner
    ensures r.Err? ==> r.error == Unauthorized
    ensures r.Ok? ==>
      && r.value.config.maxEntriesInQueue == n
      && r.value.config.waitingPeriodSecs == s.config.waitingPeriodSecs
      && r.value.config.fees == s.config.fees
      && r.value.(config := s.config) == s
  {
    if isOwner then Ok(s.(config := s.config.(maxEntriesInQueue := n))) else Err(Unauthorized)
  }

  function SetExchangeFeeRate(s: State, isOwner: bool, asset: Asset, rate: FeeRate): (r: Result<State>)
    ensures r.Ok? <==> isOwner
    ensures r.Err? ==> r.error == Unauthorized
    ensures r.Ok? ==>
      && (forall src :: FeeRateForExchange(r.value.config.fees, src, asset) == rate)
      && (forall src, dest :: dest != asset ==>
            FeeRateForExchange(r.value.config.fees, src, dest) == FeeRateForExchange(s.config.fees, src, dest))
      && r.value.config.waitingPeriodSecs == s.config.waitingPeriodSecs
      && r.value.config.maxEntriesInQueue == s.config.maxEntriesInQueue
      && r.value.(config := s.config) == s
  {
    if isOwner then Ok(s.(config := s.config.(fees := SetFeeRate(s.config.fees, asset, rate)))) else Err(Unauthorized)
  }
}
