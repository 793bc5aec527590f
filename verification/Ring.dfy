/**
 A log as the database holds it: one registry row and a ring of two entry
 tables (ring.go, and the statements of store.go). Every operation here is one
 atomic step; module Locks takes the steps apart and puts them back together.
 */
module Ring {
  import opened Words
  import opened Rules
  import opened Codec

  /** The span of seqnos in the current table from which on a rotation is due. */
  const ROTATE_AFTER: nat := 4096

  type Slot = s: int | s == 0 || s == 1

  /** The registry row, without the columns that never change. */
  datatype Row = Row(epoch: nat, lastSeqno: nat, trimUpto: nat, curSlot: Slot, curLo: nat, prevHi: nat) {

    function Found(): AppendState {
      AppendState(epoch, lastSeqno)
    }

    /** The slot that does not take appends. */
    function PrevSlot(): Slot {
      1 - curSlot
    }

    /** The other table holds something, and all of it is at or below the watermark. */
    predicate PrevEmpty() {
      prevHi > 0 && trimUpto >= Sub64(curLo, 1)
    }

    /** A rotation is due; the subtraction wraps on a log with no entries. */
    predicate RingFull() {
      Add64(Sub64(lastSeqno, curLo), 1) >= ROTATE_AFTER
    }

    predicate CanRotate() {
      prevHi == 0 && RingFull()
    }

    /** What may be done to this row, given whether the caller may truncate: (truncate, rotate). */
    function ReclaimSteps(mayTruncate: bool): (bool, bool) {
      var truncate := mayTruncate && PrevEmpty();
      var after := if truncate then this.(prevHi := 0) else this;
      (truncate, after.CanRotate())
    }

    function Cleared(): Row {
      this.(prevHi := 0)
    }

    function Rotated(): Row {
      this.(curSlot := 1 - curSlot, prevHi := lastSeqno, curLo := lastSeqno + 1)
    }
  }

  datatype State = State(row: Row, slot0: Table, slot1: Table) {

    function At(slot: Slot): Table {
      if slot == 0 then slot0 else slot1
    }

    function With(slot: Slot, table: Table): State {
      if slot == 0 then this.(slot0 := table) else this.(slot1 := table)
    }
  }

  /** The state CreateLogs gives a log it registers. */
  const CREATED := State(Row(0, 0, 0, 0, FIRST_SEQNO, 0), multiset{}, multiset{})

  /** A reclaim carries the row its trim returned, which may be arbitrarily stale by now. */
  datatype Operation =
    | Fence(epoch: nat)
    | Append(epoch: nat, first: nat, payloads: seq<Bytes>)
    | Trim(upTo: nat)
    | Reclaim(gate: Row)

  /** The operations, but for a batch that would end where the bigint column does. */
  type Op = o: Operation | InSpace(o) witness Trim(0)

  predicate InSpace(o: Operation) {
    o.Append? ==> o.first + |o.payloads| <= TWO63
  }

  /** Whether the operation's statement finds its row matching. */
  predicate Admits(row: Row, op: Op) {
    match op
    case Fence(e) => e > 0 && FenceMatches(row.epoch, e)
    case Append(e, first, payloads) =>
      && CheckAppend(e, first, |payloads|).Admitted?
      && UpdateMatches(e, first, row.Found())
    case Trim(upTo) => CheckTrim(upTo)
    case Reclaim(gate) => var (t, r) := gate.ReclaimSteps(true); t || r
  }

  /**
   How an entry is laid out in rows. The protocol does not depend on it, so it is a
   parameter here; the program's own is Codec.Laid.
   */
  type Cut = Entry -> Table

  /** The rows of entries[lo - 1], ..., entries[hi - 1]. */
  function Held(cut: Cut, entries: seq<Entry>, lo: nat, hi: int): Table
    requires 1 <= lo && hi <= |entries|
    decreases hi
  {
    if hi < lo then multiset{} else Held(cut, entries, lo, hi - 1) + cut(entries[hi - 1])
  }

  function BatchRows(cut: Cut, epoch: nat, first: nat, payloads: seq<Bytes>): Table {
    var batch := BatchEntries(epoch, first, payloads);
    Held(cut, batch, 1, |batch|)
  }

  function Truncated(s: State): State {
    s.With(s.row.PrevSlot(), multiset{}).(row := s.row.Cleared())
  }

  function Step(cut: Cut, s: State, op: Op): State {
    if !Admits(s.row, op) then s else
      match op
      case Fence(e) => s.(row := s.row.(epoch := e))
      case Append(e, first, payloads) =>
        s.With(s.row.curSlot, s.At(s.row.curSlot) + BatchRows(cut, e, first, payloads))
        .(row := s.row.(lastSeqno := first + |payloads| - 1))
      case Trim(upTo) =>
        s.(row := s.row.(trimUpto := Max(s.row.trimUpto, Min(TrimReach(upTo), s.row.lastSeqno))))
      case Reclaim(gate) =>
        var (truncate, rotate) := s.row.ReclaimSteps(gate.ReclaimSteps(true).0);
        var emptied := if truncate then Truncated(s) else s;
        if rotate then emptied.(row := emptied.row.Rotated()) else emptied
  }

  function Run(cut: Cut, s: State, ops: seq<Op>): State
    decreases |ops|
  {
    if ops == [] then s else Run(cut, Step(cut, s, ops[0]), ops[1..])
  }

  lemma {:induction false} RunConcat(cut: Cut, s: State, o1: seq<Op>, o2: seq<Op>)
    ensures Run(cut, s, o1 + o2) == Run(cut, Run(cut, s, o1), o2)
    decreases |o1|
  {
    if o1 == [] {
      assert o1 + o2 == o2;
    } else {
      assert (o1 + o2)[1..] == o1[1..] + o2;
      RunConcat(cut, Step(cut, s, o1[0]), o1[1..], o2);
    }
  }

  /** Two columns never move back; the diagnoses made after a refusal rest on it. */
  ghost predicate Later(a: Row, b: Row) {
    a.epoch <= b.epoch && a.lastSeqno <= b.lastSeqno && a.trimUpto <= b.trimUpto
  }

  lemma {:induction false} RunOnlyAdvances(cut: Cut, s: State, ops: seq<Op>)
    ensures Later(s.row, Run(cut, s, ops).row)
    decreases |ops|
  {
    if ops != [] {
      RunOnlyAdvances(cut, Step(cut, s, ops[0]), ops[1..]);
    }
  }

  /** The operations without the appends of epochs below `e`. */
  function WithoutLower(ops: seq<Op>, e: nat): seq<Op> {
    if ops == [] then []
    else if ops[0].Append? && ops[0].epoch < e then WithoutLower(ops[1..], e)
    else [ops[0]] + WithoutLower(ops[1..], e)
  }

  /**
   Fencing, down to the rows: once a fence at `e` has taken effect, row and tables are
   after any further operations what they would be without the appends of lower epochs.
   */
  lemma {:induction false} FenceCutsOffRows(cut: Cut, s: State, e: nat, ops: seq<Op>)
    requires s.row.epoch >= e
    ensures Run(cut, s, ops) == Run(cut, s, WithoutLower(ops, e))
    decreases |ops|
  {
    if ops != [] {
      var rest := WithoutLower(ops[1..], e);
      FenceCutsOffRows(cut, Step(cut, s, ops[0]), e, ops[1..]);
      if ops[0].Append? && ops[0].epoch < e {
        assert Step(cut, s, ops[0]) == s;
      } else {
        assert ([ops[0]] + rest)[1..] == rest;
      }
    }
  }
}
