/**
 Every interleaving of fences, appends, trims and reclaims over the row and the
 ring is a run of the abstract log, in which a reclaim does nothing.

 The ring forgets: trimmed entries are gone from the tables and the row does not
 say where the older half begins. The relation therefore carries the abstract
 log and `prevLo`, the first seqno the older half holds, as history.
 */
module Refinement {
  import opened Words
  import opened Rules
  import opened Codec
  import opened Ring
  import A = AbstractLog

  /** What the row says, for a log with this history (ring.go's bookkeeping). */
  predicate RowFits(row: Row, a: A.Log, prevLo: nat) {
    && row.epoch == a.owner
    && row.lastSeqno == |a.entries| < TWO63
    && row.trimUpto == a.trimmed <= |a.entries|
    && 1 <= prevLo <= row.curLo <= row.lastSeqno + 1
    && prevLo <= row.trimUpto + 1
    && (row.prevHi == 0 ==> prevLo == row.curLo)
    && (row.prevHi > 0 ==> row.prevHi == row.curLo - 1 && prevLo < row.curLo)
  }

  /** The live half holds the entries from curLo on, the older one those from prevLo up to it. */
  predicate TablesFit(cut: Cut, live: Table, older: Table, entries: seq<Entry>, prevLo: nat, curLo: nat)
    requires 1 <= prevLo <= curLo <= |entries| + 1
  {
    && live == Held(cut, entries, curLo, |entries|)
    && older == Held(cut, entries, prevLo, curLo - 1)
  }

  /** The row and the tables of a log with this history. */
  predicate Mirrors(cut: Cut, s: State, a: A.Log, prevLo: nat) {
    && RowFits(s.row, a, prevLo)
    && TablesFit(cut, s.At(s.row.curSlot), s.At(s.row.PrevSlot()), a.entries, prevLo, s.row.curLo)
  }

  predicate Refines(cut: Cut, s: State, a: A.Log, prevLo: nat) {
    a.Valid() && Mirrors(cut, s, a, prevLo)
  }

  /** The abstract call an operation is: reclaiming space is no call at all. */
  function CallOf(op: Op): A.Call {
    match op
    case Fence(e) => A.Fence(e)
    case Append(e, first, payloads) => A.Append(e, first, payloads)
    case Trim(upTo) => A.Trim(upTo)
    case Reclaim(_) => A.Idle
  }

  function CallsOf(ops: seq<Op>): seq<A.Call> {
    if ops == [] then [] else [CallOf(ops[0])] + CallsOf(ops[1..])
  }

  /** Where the older half begins after a step. */
  function PrevLoAfter(row: Row, op: Op, prevLo: nat): nat {
    if !op.Reclaim? || !Admits(row, op) then prevLo else
      var (truncate, rotate) := row.ReclaimSteps(op.gate.ReclaimSteps(true).0);
      if truncate || rotate then row.curLo else prevLo
  }

  lemma {:induction false} WrapBack(d: int)
    ensures (d % TWO64 + 1) % TWO64 == (d + 1) % TWO64
  {
  }

  /** The wrapping arithmetic of ring.go is the true arithmetic on every row of a log. */
  lemma {:induction false} RingTestsAreExact(row: Row, a: A.Log, prevLo: nat)
    requires RowFits(row, a, prevLo)
    ensures row.RingFull() <==> row.lastSeqno + 1 - row.curLo >= ROTATE_AFTER
    ensures row.PrevEmpty() <==> row.prevHi > 0 && row.trimUpto >= row.prevHi
    ensures row.prevHi == 0 ==> row.trimUpto >= row.curLo - 1
  {
    WrapBack(row.lastSeqno - row.curLo);
  }

  // ---------- rows of ranges ----------

  lemma {:induction false} HeldBelow(cut: Cut, entries: seq<Entry>, more: seq<Entry>, lo: nat, hi: int)
    requires 1 <= lo && hi <= |entries|
    ensures Held(cut, entries + more, lo, hi) == Held(cut, entries, lo, hi)
    decreases hi
  {
    if lo <= hi {
      HeldBelow(cut, entries, more, lo, hi - 1);
    }
  }

  lemma {:induction false} HeldAppend(cut: Cut, entries: seq<Entry>, batch: seq<Entry>, lo: nat)
    requires 1 <= lo <= |entries| + 1
    ensures Held(cut, entries + batch, lo, |entries + batch|)
         == Held(cut, entries, lo, |entries|) + Held(cut, batch, 1, |batch|)
  {
    HeldAppendTo(cut, entries, batch, lo, |batch|);
    assert |entries + batch| == |entries| + |batch|;
  }

  lemma {:induction false} HeldAppendTo(cut: Cut, entries: seq<Entry>, batch: seq<Entry>, lo: nat, n: nat)
    requires 1 <= lo <= |entries| + 1 && n <= |batch|
    ensures Held(cut, entries + batch, lo, |entries| + n) == Held(cut, entries, lo, |entries|) + Held(cut, batch, 1, n)
    decreases n
  {
    if n == 0 {
      HeldBelow(cut, entries, batch, lo, |entries|);
    } else {
      HeldAppendTo(cut, entries, batch, lo, n - 1);
      assert (entries + batch)[|entries| + n - 1] == batch[n - 1];
    }
  }

  lemma {:induction false} HeldSplit(cut: Cut, entries: seq<Entry>, lo: nat, mid: nat, hi: int)
    requires 1 <= lo <= mid <= hi + 1 <= |entries| + 1
    ensures Held(cut, entries, lo, hi) == Held(cut, entries, lo, mid - 1) + Held(cut, entries, mid, hi)
    decreases hi
  {
    if mid <= hi {
      HeldSplit(cut, entries, lo, mid, hi - 1);
    }
  }

  /** Every row of an entry carries the entry's seqno. */
  ghost predicate Tagged(cut: Cut) {
    forall e, row :: row in cut(e) ==> row.seqno == e.seqno
  }

  lemma {:induction false} HeldSeqnos(cut: Cut, entries: seq<Entry>, lo: nat, hi: int, row: EntryRow)
    requires Tagged(cut) && A.Numbered(entries) && 1 <= lo && hi <= |entries|
    requires row in Held(cut, entries, lo, hi)
    ensures lo <= row.seqno <= hi
    decreases hi
  {
    if row !in cut(entries[hi - 1]) {
      HeldSeqnos(cut, entries, lo, hi - 1, row);
    }
  }

  lemma {:induction false} NotHeld(cut: Cut, entries: seq<Entry>, lo: nat, hi: int, row: EntryRow)
    requires Tagged(cut) && A.Numbered(entries) && 1 <= lo && hi <= |entries|
    requires row.seqno < lo || row.seqno > hi
    ensures Held(cut, entries, lo, hi)[row] == 0
  {
    if row in Held(cut, entries, lo, hi) {
      HeldSeqnos(cut, entries, lo, hi, row);
      assert false;
    }
  }

  lemma {:induction false} LaidIsTagged()
    ensures Tagged(Laid)
  {
    forall e: Entry, row: EntryRow | row in Laid(e)
      ensures row.seqno == e.seqno
    {
      RowsOfEntrySeqno(e, row);
    }
  }

  // ---------- one step ----------

  lemma {:induction false} AppendTables(cut: Cut, live: Table, older: Table, entries: seq<Entry>, prevLo: nat,
                                        curLo: nat, batch: seq<Entry>)
    requires 1 <= prevLo <= curLo <= |entries| + 1 && TablesFit(cut, live, older, entries, prevLo, curLo)
    ensures TablesFit(cut, live + Held(cut, batch, 1, |batch|), older, entries + batch, prevLo, curLo)
  {
    HeldAppend(cut, entries, batch, curLo);
    HeldBelow(cut, entries, batch, prevLo, curLo - 1);
  }

  lemma {:induction false} AppendFits(cut: Cut, s: State, a: A.Log, prevLo: nat, op: Op)
    requires op.Append? && Mirrors(cut, s, a, prevLo) && Admits(s.row, op)
    ensures Mirrors(cut, Step(cut, s, op), A.Step(a, CallOf(op)), prevLo)
  {
    var t := Step(cut, s, op);
    var batch := BatchEntries(op.epoch, op.first, op.payloads);
    AppendTables(cut, s.At(s.row.curSlot), s.At(s.row.PrevSlot()), a.entries, prevLo, s.row.curLo, batch);
    assert t.At(t.row.curSlot) == s.At(s.row.curSlot) + Held(cut, batch, 1, |batch|);
    assert t.At(t.row.PrevSlot()) == s.At(s.row.PrevSlot());
  }

  lemma {:induction false} TruncateFits(cut: Cut, s: State, a: A.Log, prevLo: nat)
    requires Mirrors(cut, s, a, prevLo) && s.row.PrevEmpty()
    ensures Mirrors(cut, Truncated(s), a, s.row.curLo)
  {
    RingTestsAreExact(s.row, a, prevLo);
  }

  lemma {:induction false} RotateFits(cut: Cut, s: State, a: A.Log, prevLo: nat)
    requires Mirrors(cut, s, a, prevLo) && s.row.CanRotate()
    ensures Mirrors(cut, s.(row := s.row.Rotated()), a, s.row.curLo)
  {
    RingTestsAreExact(s.row, a, prevLo);
  }

  lemma {:induction false} ReclaimFits(cut: Cut, s: State, a: A.Log, prevLo: nat, op: Op)
    requires op.Reclaim? && Mirrors(cut, s, a, prevLo)
    ensures Mirrors(cut, Step(cut, s, op), a, PrevLoAfter(s.row, op, prevLo))
  {
    if Admits(s.row, op) {
      var (truncate, rotate) := s.row.ReclaimSteps(op.gate.ReclaimSteps(true).0);
      var emptied := if truncate then Truncated(s) else s;
      if truncate {
        TruncateFits(cut, s, a, prevLo);
      }
      if rotate {
        RotateFits(cut, emptied, a, if truncate then s.row.curLo else prevLo);
      }
    }
  }

  /** One step of the ring is one step of the abstract log, and a reclaim is none. */
  lemma {:induction false} StepRefines(cut: Cut, s: State, a: A.Log, prevLo: nat, op: Op)
    requires Refines(cut, s, a, prevLo)
    ensures Refines(cut, Step(cut, s, op), A.Step(a, CallOf(op)), PrevLoAfter(s.row, op, prevLo))
  {
    A.StepKeepsValid(a, CallOf(op));
    StepFits(cut, s, a, prevLo, op);
  }

  lemma {:induction false} StepFits(cut: Cut, s: State, a: A.Log, prevLo: nat, op: Op)
    requires Mirrors(cut, s, a, prevLo)
    ensures Mirrors(cut, Step(cut, s, op), A.Step(a, CallOf(op)), PrevLoAfter(s.row, op, prevLo))
  {
    if op.Reclaim? {
      ReclaimFits(cut, s, a, prevLo, op);
    } else if op.Append? && Admits(s.row, op) {
      AppendFits(cut, s, a, prevLo, op);
    }
  }

  // ---------- whole runs ----------

  function PrevLoRun(cut: Cut, s: State, ops: seq<Op>, prevLo: nat): nat
    decreases |ops|
  {
    if ops == [] then prevLo
    else PrevLoRun(cut, Step(cut, s, ops[0]), ops[1..], PrevLoAfter(s.row, ops[0], prevLo))
  }

  lemma {:induction false} RunRefines(cut: Cut, s: State, a: A.Log, prevLo: nat, ops: seq<Op>)
    requires Refines(cut, s, a, prevLo)
    ensures Refines(cut, Run(cut, s, ops), A.Run(a, CallsOf(ops)), PrevLoRun(cut, s, ops, prevLo))
    decreases |ops|
  {
    if ops != [] {
      StepRefines(cut, s, a, prevLo, ops[0]);
      RunRefines(cut, Step(cut, s, ops[0]), A.Step(a, CallOf(ops[0])), PrevLoAfter(s.row, ops[0], prevLo), ops[1..]);
      assert CallsOf(ops)[1..] == CallsOf(ops[1..]);
    }
  }

  /** The state, the history and the start of the older half that a run from a created log ends in. */
  ghost function After(cut: Cut, ops: seq<Op>): State {
    Run(cut, CREATED, ops)
  }

  ghost function Told(ops: seq<Op>): A.Log {
    A.Run(A.EMPTY, CallsOf(ops))
  }

  ghost function Older(cut: Cut, ops: seq<Op>): nat {
    PrevLoRun(cut, CREATED, ops, 1)
  }

  /**
   Refinement. Whatever fences, appends, trims and reclaims run, in whatever order
   and with whatever stale gates, row and tables are those of the abstract log on
   which the same calls ran and the reclaims did not.
   */
  lemma {:induction false} EveryRunRefines(cut: Cut, ops: seq<Op>)
    ensures Refines(cut, After(cut, ops), Told(ops), Older(cut, ops))
  {
    RunRefines(cut, CREATED, A.EMPTY, 1, ops);
  }

  // ---------- what the tables hold ----------

  /** Both halves together hold one unbroken run of seqnos, from prevLo to the end. */
  lemma {:induction false} TablesHoldOneRun(cut: Cut, s: State, a: A.Log, prevLo: nat)
    requires Mirrors(cut, s, a, prevLo)
    ensures s.slot0 + s.slot1 == Held(cut, a.entries, prevLo, |a.entries|)
  {
    HeldSplit(cut, a.entries, prevLo, s.row.curLo, |a.entries|);
  }

  /**
   In every reachable state the rows above the watermark are exactly those of the
   abstract entries above it, each once: nothing live is lost, doubled or invented,
   whichever half it is in and however often the ring has turned. The entries are
   the consecutive seqnos up to the row's last one.
   */
  lemma {:induction false} LiveRowsAreTheLog(cut: Cut, ops: seq<Op>, row: EntryRow)
    requires Tagged(cut)
    ensures var s, a := After(cut, ops), Told(ops);
            && s.row.trimUpto == a.trimmed <= |a.entries| == s.row.lastSeqno
            && A.Numbered(a.entries)
            && (row.seqno > a.trimmed ==>
                  (s.slot0 + s.slot1)[row] == Held(cut, a.entries, a.trimmed + 1, |a.entries|)[row])
  {
    EveryRunRefines(cut, ops);
    if row.seqno > Told(ops).trimmed {
      LiveRows(cut, After(cut, ops), Told(ops), Older(cut, ops), row);
    }
  }

  lemma {:induction false} LiveRows(cut: Cut, s: State, a: A.Log, prevLo: nat, row: EntryRow)
    requires Tagged(cut) && A.Numbered(a.entries) && Mirrors(cut, s, a, prevLo) && row.seqno > a.trimmed
    ensures (s.slot0 + s.slot1)[row] == Held(cut, a.entries, a.trimmed + 1, |a.entries|)[row]
  {
    TablesHoldOneRun(cut, s, a, prevLo);
    HeldSplit(cut, a.entries, prevLo, a.trimmed + 1, |a.entries|);
    NotHeld(cut, a.entries, prevLo, a.trimmed, row);
  }

  /** ring.go's bookkeeping, in every reachable state. */
  lemma {:induction false} RingInvariant(cut: Cut, ops: seq<Op>)
    ensures var row := After(cut, ops).row;
            && row.trimUpto <= row.lastSeqno < TWO63
            && 1 <= row.curLo <= row.lastSeqno + 1
            && (row.prevHi == 0 || row.prevHi == row.curLo - 1)
            && (row.prevHi == 0 ==> row.trimUpto >= row.curLo - 1)
            && (row.RingFull() <==> row.lastSeqno + 1 - row.curLo >= ROTATE_AFTER)
            && (row.PrevEmpty() <==> row.prevHi > 0 && row.trimUpto >= row.prevHi)
  {
    EveryRunRefines(cut, ops);
    RingTestsAreExact(After(cut, ops).row, Told(ops), Older(cut, ops));
  }

  // ---------- reclaim ----------

  /**
   Reclaim under a stale gate. Whatever ran between the trim that returned `gate`
   and the row lock: rows go only from the older half and only at or below the
   watermark, the live half is untouched, the ring turns only into an empty table,
   and where the gate locked nothing for truncation an older half still held keeps
   the ring from turning.
   */
  lemma {:induction false} ReclaimIsSafe(cut: Cut, ops: seq<Op>, gate: Row, row: EntryRow)
    requires Tagged(cut)
    ensures var s := After(cut, ops); var t := Step(cut, s, Reclaim(gate));
            && t.At(s.row.curSlot) == s.At(s.row.curSlot)
            && (row in s.slot0 + s.slot1 && row !in t.slot0 + t.slot1 ==> row.seqno <= s.row.trimUpto)
            && (t.row.curSlot != s.row.curSlot ==> t.At(t.row.curSlot) == multiset{})
            && (s.row.prevHi > 0 && !gate.PrevEmpty() ==> t == s)
  {
    EveryRunRefines(cut, ops);
    var s, a, prevLo := After(cut, ops), Told(ops), Older(cut, ops);
    ReclaimTouchesOlderHalf(cut, s, a, prevLo, gate);
    if row in s.At(s.row.PrevSlot()) {
      HeldSeqnos(cut, a.entries, prevLo, s.row.curLo - 1, row);
    }
  }

  /**
   What a trim's own reclaim does in every reachable state, told from the row alone. It
   does nothing while the older half holds anything the watermark has not reached;
   otherwise it empties that half if it holds anything, and turns the ring exactly when
   the live half spans 4096 seqnos or more.
   */
  lemma {:induction false} ReclaimDecides(cut: Cut, ops: seq<Op>)
    ensures var s := After(cut, ops);
            var row, t := s.row, Step(cut, s, Reclaim(s.row));
            var passed, full := row.prevHi == 0 || row.trimUpto >= row.prevHi, row.lastSeqno - row.curLo + 1 >= 4096;
            && (!passed ==> t == s)
            && (passed && !full ==> t.row == row.(prevHi := 0))
            && (passed && full ==>
                  t.row == row.(curSlot := 1 - row.curSlot, prevHi := row.lastSeqno, curLo := row.lastSeqno + 1))
            && (passed && row.prevHi > 0 ==> t.At(row.PrevSlot()) == multiset{})
            && (row.prevHi == 0 ==> t.slot0 == s.slot0 && t.slot1 == s.slot1)
  {
    EveryRunRefines(cut, ops);
    RowDecides(cut, After(cut, ops), Told(ops), Older(cut, ops));
  }

  lemma {:induction false} RowDecides(cut: Cut, s: State, a: A.Log, prevLo: nat)
    requires RowFits(s.row, a, prevLo)
    ensures var row, t := s.row, Step(cut, s, Reclaim(s.row));
            var passed, full := row.prevHi == 0 || row.trimUpto >= row.prevHi, row.lastSeqno - row.curLo + 1 >= 4096;
            && (!passed ==> t == s)
            && (passed && !full ==> t.row == row.(prevHi := 0))
            && (passed && full ==>
                  t.row == row.(curSlot := 1 - row.curSlot, prevHi := row.lastSeqno, curLo := row.lastSeqno + 1))
            && (passed && row.prevHi > 0 ==> t.At(row.PrevSlot()) == multiset{})
            && (row.prevHi == 0 ==> t.slot0 == s.slot0 && t.slot1 == s.slot1)
  {
    RingTestsAreExact(s.row, a, prevLo);
  }

  /** A reclaim either leaves the tables alone or empties the older half, which the watermark has passed. */
  lemma {:induction false} ReclaimTouchesOlderHalf(cut: Cut, s: State, a: A.Log, prevLo: nat, gate: Row)
    requires Mirrors(cut, s, a, prevLo)
    ensures var t := Step(cut, s, Reclaim(gate));
            && t.At(s.row.curSlot) == s.At(s.row.curSlot)
            && (t.At(s.row.PrevSlot()) == s.At(s.row.PrevSlot())
                || (t.At(s.row.PrevSlot()) == multiset{} && s.row.curLo - 1 <= s.row.trimUpto))
            && (t.row.curSlot != s.row.curSlot ==> t.At(t.row.curSlot) == multiset{})
            && (s.row.prevHi > 0 && !gate.PrevEmpty() ==> t == s)
  {
    RingTestsAreExact(s.row, a, prevLo);
  }
}
