/**
 The load generator's schedule (cmd/pgnotch-load/rate.go): one slot per interval,
 late slots repaid at once, and what is later than `catchup` abandoned and counted.
 Times and durations are nanosecond counts; the readings of the clock are arguments.
 */
module Pacer {

  datatype Slot = Slot(wait: nat, next: int, skipped: nat)

  /** How long the slot of `due` has to wait, the next slot's due time, and the slots skipped over. */
  function Schedule(due: int, now: int, interval: nat, catchup: nat): Slot
    requires interval > 0
  {
    var behind := now - due;
    if behind < 0 then Slot(-behind, due + interval, 0)
    else if behind <= catchup then Slot(0, due + interval, 0)
    else Slot(0, now + interval, behind / interval)
  }

  function Later(a: int, b: int): int {
    if a <= b then b else a
  }

  class Pacer {
    const interval: nat
    const catchup: nat
    var due: int

    constructor (start: int, interval: nat, catchup: nat)
      ensures due == start && this.interval == interval && this.catchup == catchup
    {
      this.interval, this.catchup, due := interval, catchup, start;
    }

    /** How long to block and how many slots were abandoned; the caller blocks. */
    method Wait(now: int) returns (wait: nat, skipped: nat)
      requires interval > 0
      modifies this`due
      ensures Slot(wait, due, skipped) == Schedule(old(due), now, interval, catchup)
    {
      var slot := Schedule(due, now, interval, catchup);
      due := slot.next;
      wait, skipped := slot.wait, slot.skipped;
    }

    /**
     A writer's use of it, a slot for each reading of the clock: a slot that is due is
     issued at once and an early one exactly when it is due, and what the schedule has
     moved on by is accounted for by the slots issued, the slots reported skipped and
     less than an interval for each restart.
     */
    method Issue(nows: seq<int>) returns (issued: seq<int>, skipped: nat)
      requires interval > 0
      modifies this`due
      ensures var p, n := Pace(old(due), interval, catchup), |nows|;
              && |issued| == n && due == p.Due(nows, n) && skipped == p.Skipped(nows, n)
              && (forall k :: 0 <= k < n ==> issued[k] == p.Issued(nows, k))
              && 0 <= p.Drift(nows, n) <= p.Restarted(nows, n) * (interval - 1)
    {
      ghost var p := Pace(due, interval, catchup);
      issued, skipped := [], 0;
      for i := 0 to |nows|
        invariant |issued| == i && due == p.Due(nows, i) && skipped == p.Skipped(nows, i)
        invariant forall k :: 0 <= k < i ==> issued[k] == p.Issued(nows, k)
      {
        var wait, more := Wait(nows[i]);
        issued, skipped := issued + [nows[i] + wait], skipped + more;
      }
      NothingIsLost(p, nows, |nows|);
    }
  }

  // ---------- runs: one clock reading per slot ----------

  datatype Pace = Pace(start: int, interval: nat, catchup: nat) {

    /** When the k-th slot is due, given the readings made for the slots before it. */
    function Due(nows: seq<int>, k: nat): int
      requires interval > 0 && k <= |nows|
    {
      if k == 0 then start else Schedule(Due(nows, k - 1), nows[k - 1], interval, catchup).next
    }

    function At(nows: seq<int>, k: nat): Slot
      requires interval > 0 && k < |nows|
    {
      Schedule(Due(nows, k), nows[k], interval, catchup)
    }

    /** When the k-th slot is issued. */
    function Issued(nows: seq<int>, k: nat): int
      requires interval > 0 && k < |nows|
    {
      nows[k] + At(nows, k).wait
    }

    /** Slots abandoned, and schedules restarted, before the k-th slot. */
    function Skipped(nows: seq<int>, k: nat): nat
      requires interval > 0 && k <= |nows|
    {
      if k == 0 then 0 else Skipped(nows, k - 1) + At(nows, k - 1).skipped
    }

    /** How far the schedule has moved beyond an interval for every slot issued or skipped. */
    function Drift(nows: seq<int>, k: nat): int
      requires interval > 0 && k <= |nows|
    {
      Due(nows, k) - start - interval * (k + Skipped(nows, k))
    }

    predicate Restarts(nows: seq<int>, k: nat)
      requires interval > 0 && k < |nows|
    {
      nows[k] - Due(nows, k) > catchup
    }

    function Restarted(nows: seq<int>, k: nat): nat
      requires interval > 0 && k <= |nows|
    {
      if k == 0 then 0 else Restarted(nows, k - 1) + if Restarts(nows, k - 1) then 1 else 0
    }
  }

  /** Consecutive slots are due an interval apart or more, however the readings fall. */
  lemma {:induction false} DueClimbs(p: Pace, nows: seq<int>, j: nat, k: nat)
    requires p.interval > 0 && j + k <= |nows|
    ensures p.Due(nows, j + k) >= p.Due(nows, j) + k * p.interval
    decreases k
  {
    if k > 0 {
      DueClimbs(p, nows, j, k - 1);
      assert k * p.interval == (k - 1) * p.interval + p.interval;
    }
  }

  /** A slot that is due goes at once, however late it is, and an early one exactly when it is due. */
  lemma {:induction false} AtOnceOrWhenDue(p: Pace, nows: seq<int>, k: nat)
    requires p.interval > 0 && k < |nows|
    ensures p.Issued(nows, k) == Later(nows[k], p.Due(nows, k))
  {
  }

  lemma {:induction false} OnTimeNext(p: Pace, due: int, now: int, k: nat)
    requires p.interval > 0 && now - due <= p.catchup && due == p.start + k * p.interval
    ensures Schedule(due, now, p.interval, p.catchup).next == p.start + (k + 1) * p.interval
    ensures Schedule(due, now, p.interval, p.catchup).skipped == 0
  {
  }

  /** While no reading is later than the catch-up allows the schedule keeps its origin and skips nothing. */
  lemma {:induction false} OriginIsKept(p: Pace, nows: seq<int>, k: nat)
    requires p.interval > 0 && k <= |nows|
    requires forall j :: 0 <= j < k ==> !p.Restarts(nows, j)
    ensures p.Due(nows, k) == p.start + k * p.interval && p.Skipped(nows, k) == 0
    decreases k
  {
    if k > 0 {
      OriginIsKept(p, nows, k - 1);
      assert !p.Restarts(nows, k - 1);
      OnTimeNext(p, p.Due(nows, k - 1), nows[k - 1], k - 1);
    }
  }

  /** A later one restarts it: the slot is issued now, the next is due an interval on, and every whole interval missed is skipped. */
  lemma {:induction false} RestartsFromNow(p: Pace, nows: seq<int>, k: nat)
    requires p.interval > 0 && k < |nows| && nows[k] - p.Due(nows, k) > p.catchup
    ensures p.Issued(nows, k) == nows[k] && p.Due(nows, k + 1) == nows[k] + p.interval
    ensures var missed := p.Skipped(nows, k + 1) - p.Skipped(nows, k);
            missed * p.interval <= nows[k] - p.Due(nows, k) < (missed + 1) * p.interval
  {
    var behind := nows[k] - p.Due(nows, k);
    var missed := behind / p.interval;
    assert behind == p.interval * missed + behind % p.interval;
    assert (missed + 1) * p.interval == missed * p.interval + p.interval;
  }

  /** The k-th slot is never issued before its place in the schedule fixed at the start. */
  lemma {:induction false} NeverEarly(p: Pace, nows: seq<int>, k: nat)
    requires p.interval > 0 && k < |nows|
    ensures p.Issued(nows, k) >= p.start + k * p.interval
  {
    DueClimbs(p, nows, 0, k);
  }

  /**
   No burst beyond the catch-up: from the moment slot j is decided on, the k-th slot
   from there is issued no earlier than (k - 1) intervals less the catch-up later.
   */
  lemma {:induction false} BurstIsBounded(p: Pace, nows: seq<int>, j: nat, k: nat)
    requires p.interval > 0 && k >= 1 && j + k <= |nows|
    ensures p.Issued(nows, j + k - 1) >= nows[j] + (k - 1) * p.interval - p.catchup
  {
    if k >= 2 {
      DueClimbs(p, nows, j + 1, k - 2);
      assert (k - 1) * p.interval == (k - 2) * p.interval + p.interval;
    }
  }

  /**
   The books balance: the schedule stands at its start plus one interval per slot
   issued or reported skipped, plus a drift of less than one interval per restart.
   */
  lemma {:induction false} NothingIsLost(p: Pace, nows: seq<int>, k: nat)
    requires p.interval > 0 && k <= |nows|
    ensures 0 <= p.Drift(nows, k) <= p.Restarted(nows, k) * (p.interval - 1)
    decreases k
  {
    if k > 0 {
      NothingIsLost(p, nows, k - 1);
      var skipped, r := p.At(nows, k - 1).skipped, p.Restarted(nows, k - 1);
      SlotAccount(p, p.Due(nows, k - 1), nows[k - 1]);
      Distribute(p.interval, k - 1 + p.Skipped(nows, k - 1), skipped, r);
      assert p.interval * (k + p.Skipped(nows, k)) == p.interval * (k - 1 + p.Skipped(nows, k - 1) + 1 + skipped);
    }
  }

  /** One slot moves the schedule by an interval for itself and each slot it skips, and a remainder if it restarts. */
  lemma {:induction false} SlotAccount(p: Pace, due: int, now: int)
    requires p.interval > 0
    ensures var slot := Schedule(due, now, p.interval, p.catchup);
            var drift := slot.next - due - p.interval - p.interval * slot.skipped;
            0 <= drift <= if now - due > p.catchup then p.interval - 1 else 0
  {
    var behind := now - due;
    if behind > p.catchup {
      assert behind == p.interval * (behind / p.interval) + behind % p.interval;
    }
  }

  lemma {:induction false} Distribute(interval: nat, before: nat, skipped: nat, r: nat)
    requires interval > 0
    ensures interval * (before + 1 + skipped) == interval * before + interval + interval * skipped
    ensures (r + 1) * (interval - 1) == r * (interval - 1) + (interval - 1)
  {
  }
}
