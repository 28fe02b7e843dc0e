/** The settlement queue of one (account, destination asset): an append-only,
    bounded, insertion-ordered log of the exchanges into that asset that have
    not been settled yet, and the waiting-period clock derived from it. */
module SettlementQueue {
  import opened Types

  /** One exchange into `dest`, as recorded when it completed: what was given,
      what was received, the fee rate charged, and when. The rate locked in is
      replayed from the oracle's price history at `timestamp`. */
  datatype Entry = Entry(
    src: Asset,
    amount: Amount,
    dest: Asset,
    amountReceived: Amount,
    feeRate: FeeRate,
    timestamp: Time)

  type Queue = seq<Entry>

  /** Appends one entry, refusing when the queue already holds `maxEntries`. */
  function Enqueue(q: Queue, e: Entry, maxEntries: nat): (r: Result<Queue>)
    ensures r.Ok? ==> |r.value| == |q| + 1 <= maxEntries && r.value[..|q|] == q && r.value[|q|] == e
    ensures r.Err? ==> r.error == QueueFull && |q| >= maxEntries
  {
    if |q| < maxEntries then Ok(q + [e]) else Err(QueueFull)
  }

  /** Appends entries one by one, stopping at the first refusal. */
  function EnqueueAll(q: Queue, es: seq<Entry>, maxEntries: nat): Result<Queue>
    decreases |es|
  {
    if |es| == 0 then Ok(q)
    else
      var q' :- Enqueue(q, es[0], maxEntries);
      EnqueueAll(q', es[1..], maxEntries)
  }

  /** With the limit set to N, N entries fit into an empty queue and every
      further one is refused; once the queue is emptied again, N entries fit
      again. */
  lemma {:induction false} EnqueueUpToLimit(q: Queue, es: seq<Entry>, maxEntries: nat)
    requires |q| <= maxEntries
    ensures |q| + |es| <= maxEntries ==> EnqueueAll(q, es, maxEntries) == Ok(q + es)
    ensures |q| + |es| > maxEntries ==> EnqueueAll(q, es, maxEntries) == Err(QueueFull)
    decreases |es|
  {
    if |es| == 0 {
      assert q + es == q;
    } else if |q| < maxEntries {
      EnqueueUpToLimit(q + [es[0]], es[1..], maxEntries);
      assert (q + [es[0]]) + es[1..] == q + es;
    }
  }

  /** Seconds an entry made at `timestamp` still has to wait at `now`. */
  function EntrySecsLeft(timestamp: Time, waitingPeriodSecs: nat, now: Time): nat {
    if now >= timestamp + waitingPeriodSecs then 0 else timestamp + waitingPeriodSecs - now
  }

  /** The largest timestamp in the queue, or 0 when it is empty. */
  function MaxTimestamp(q: Queue): (t: Time)
    ensures forall i :: 0 <= i < |q| ==> q[i].timestamp <= t
    ensures |q| > 0 ==> exists i :: 0 <= i < |q| && q[i].timestamp == t
    decreases |q|
  {
    if |q| == 0 then 0
    else
      var rest := MaxTimestamp(q[..|q| - 1]);
      if q[|q| - 1].timestamp >= rest then q[|q| - 1].timestamp else rest
  }

  /** Seconds left before the whole queue may be settled: the waiting period
      runs from the most recent entry. An empty queue has nothing to wait for. */
  function SecsLeftInWaitingPeriod(q: Queue, waitingPeriodSecs: nat, now: Time): (s: nat)
    // no entry has longer to wait than the queue ...
    ensures forall i :: 0 <= i < |q| ==> EntrySecsLeft(q[i].timestamp, waitingPeriodSecs, now) <= s
    // ... and while the queue is waiting, some entry has exactly that long
    ensures s > 0 ==> exists i :: 0 <= i < |q| && EntrySecsLeft(q[i].timestamp, waitingPeriodSecs, now) == s
    ensures |q| == 0 ==> s == 0
  {
    if |q| == 0 then 0 else EntrySecsLeft(MaxTimestamp(q), waitingPeriodSecs, now)
  }

  /** For entries made in the past, the time left never exceeds the period. */
  lemma SecsLeftAtMostWaitingPeriod(q: Queue, waitingPeriodSecs: nat, now: Time)
    requires forall i :: 0 <= i < |q| ==> q[i].timestamp <= now
    ensures SecsLeftInWaitingPeriod(q, waitingPeriodSecs, now) <= waitingPeriodSecs
  {
  }

  /** The clock counts down one second per second and then stays at zero. */
  lemma WaitingPeriodCountsDown(q: Queue, waitingPeriodSecs: nat, now: Time, later: Time)
    requires now <= later
    ensures var before := SecsLeftInWaitingPeriod(q, waitingPeriodSecs, now);
            var after := SecsLeftInWaitingPeriod(q, waitingPeriodSecs, later);
            && after <= before
            && (before >= later - now ==> after == before - (later - now))
            && (before <= later - now ==> after == 0)
  {
  }

  /** Appending an entry made now restarts the clock at the full waiting
      period, whatever was left before. */
  lemma AppendRestartsWaitingPeriod(q: Queue, e: Entry, waitingPeriodSecs: nat, now: Time)
    requires forall i :: 0 <= i < |q| ==> q[i].timestamp <= now
    requires e.timestamp == now
    ensures SecsLeftInWaitingPeriod(q + [e], waitingPeriodSecs, now) == waitingPeriodSecs
  {
    var q' := q + [e];
    assert q'[|q|] == e;
    assert forall i :: 0 <= i < |q'| ==> q'[i].timestamp <= now;
    if waitingPeriodSecs > 0 {
      assert EntrySecsLeft(e.timestamp, waitingPeriodSecs, now) == waitingPeriodSecs;
    }
  }

  /** A queue is mature exactly when every entry's own period has elapsed. */
  lemma MatureIffEveryEntryElapsed(q: Queue, waitingPeriodSecs: nat, now: Time)
    ensures SecsLeftInWaitingPeriod(q, waitingPeriodSecs, now) == 0
        <==> forall i :: 0 <= i < |q| ==> q[i].timestamp + waitingPeriodSecs <= now
  {
    if SecsLeftInWaitingPeriod(q, waitingPeriodSecs, now) == 0 {
      forall i | 0 <= i < |q|
        ensures q[i].timestamp + waitingPeriodSecs <= now
      {
        assert EntrySecsLeft(q[i].timestamp, waitingPeriodSecs, now) == 0;
      }
    }
  }
}
