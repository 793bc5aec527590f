/**
 ReadFrom: one statement reads the row, a second one reads the tables, and
 anything may commit in between (store.go:332-398).
 */
module Reads {
  import opened Words
  import opened Rules
  import opened Codec
  import opened Ring
  import opened Refinement
  import A = AbstractLog

  /** The first seqno of the window a read of `limit` entries asks for. */
  function WindowLo(row: Row, from: nat): nat {
    Max(Max(from, FIRST_SEQNO), row.trimUpto + 1)
  }

  /** What the second statement may return: the rows of either table in the window, in its order. */
  ghost predicate QueryReturns(rows: seq<EntryRow>, s: State, lo: nat, hi: nat) {
    && Ordered(rows)
    && forall row :: multiset(rows)[row] == if lo <= row.seqno <= hi then (s.slot0 + s.slot1)[row] else 0
  }

  /** The entries at seqnos lo..hi, as many of them as there are. */
  function Range(entries: seq<Entry>, lo: nat, hi: nat): seq<Entry>
    requires lo >= 1
  {
    if lo <= Min(hi, |entries|) then entries[lo - 1..Min(hi, |entries|)] else []
  }

  lemma {:induction false} HeldIsRows(entries: seq<Entry>, lo: nat, hi: nat)
    requires 1 <= lo <= hi + 1 <= |entries| + 1
    ensures Held(Laid, entries, lo, hi) == multiset(RowsOf(entries[lo - 1..hi]))
    decreases hi
  {
    if lo == hi + 1 {
      assert entries[lo - 1..hi] == [];
    } else {
      HeldIsRows(entries, lo, hi - 1);
      RowsOfLast(entries, lo, hi);
    }
  }

  lemma {:induction false} RowsOfLast(entries: seq<Entry>, lo: nat, hi: nat)
    requires 1 <= lo <= hi <= |entries|
    ensures multiset(RowsOf(entries[lo - 1..hi])) == multiset(RowsOf(entries[lo - 1..hi - 1])) + Laid(entries[hi - 1])
  {
    var part := entries[lo - 1..hi];
    var init := entries[lo - 1..hi - 1];
    SliceSnoc(entries, lo, hi);
    RowsOfSnoc(part, hi - lo);
    assert RowsOf(part) == RowsOf(init) + RowsOfEntry(entries[hi - 1]);
  }

  lemma {:induction false} SliceSnoc(entries: seq<Entry>, lo: nat, hi: nat)
    requires 1 <= lo <= hi <= |entries|
    ensures entries[lo - 1..hi][..hi - lo] == entries[lo - 1..hi - 1]
    ensures entries[lo - 1..hi][..hi - lo + 1] == entries[lo - 1..hi]
    ensures entries[lo - 1..hi][hi - lo] == entries[hi - 1]
  {
  }

  /** The rows of a window are those of the entries in it. */
  lemma {:induction false} WindowIsRange(cut: Cut, entries: seq<Entry>, prevLo: nat, lo: nat, hi: nat, row: EntryRow)
    requires Tagged(cut) && A.Numbered(entries) && 1 <= prevLo <= lo <= hi + 1 <= |entries| + 1
    ensures Held(cut, entries, lo, hi)[row]
         == if lo <= row.seqno <= hi then Held(cut, entries, prevLo, |entries|)[row] else 0
  {
    HeldSplit(cut, entries, prevLo, lo, |entries|);
    HeldSplit(cut, entries, lo, hi + 1, |entries|);
    if lo <= row.seqno <= hi {
      NotHeld(cut, entries, prevLo, lo - 1, row);
      NotHeld(cut, entries, hi + 1, |entries|, row);
    } else {
      NotHeld(cut, entries, lo, hi, row);
    }
  }

  /** A window can be narrowed to what is held without changing what the query returns. */
  lemma {:induction false} QueryHeld(cut: Cut, s: State, a: A.Log, prevLo: nat, lo: nat, hi: nat, rows: seq<EntryRow>)
    requires Tagged(cut) && A.Numbered(a.entries) && Mirrors(cut, s, a, prevLo)
    requires 1 <= lo && QueryReturns(rows, s, lo, hi)
    ensures multiset(rows) == Held(cut, a.entries, Max(lo, prevLo), Min(hi, |a.entries|))
  {
    TablesHoldOneRun(cut, s, a, prevLo);
    forall row: EntryRow
      ensures multiset(rows)[row] == Held(cut, a.entries, Max(lo, prevLo), Min(hi, |a.entries|))[row]
    {
      NarrowedWindow(cut, a.entries, prevLo, lo, hi, row);
    }
  }

  lemma {:induction false} NarrowedWindow(cut: Cut, entries: seq<Entry>, prevLo: nat, lo: nat, hi: nat, row: EntryRow)
    requires Tagged(cut) && A.Numbered(entries) && 1 <= prevLo <= |entries| + 1 && 1 <= lo
    ensures Held(cut, entries, Max(lo, prevLo), Min(hi, |entries|))[row]
         == if lo <= row.seqno <= hi then Held(cut, entries, prevLo, |entries|)[row] else 0
  {
    var l, h := Max(lo, prevLo), Min(hi, |entries|);
    if l <= h {
      WindowIsRange(cut, entries, prevLo, l, h, row);
    }
    if row.seqno < prevLo || row.seqno > |entries| {
      NotHeld(cut, entries, prevLo, |entries|, row);
    }
  }

  lemma {:induction false} RangeRows(entries: seq<Entry>, lo: nat, hi: nat)
    requires 1 <= lo
    ensures Held(Laid, entries, lo, Min(hi, |entries|)) == multiset(RowsOf(Range(entries, lo, hi)))
  {
    if lo <= Min(hi, |entries|) {
      HeldIsRows(entries, lo, Min(hi, |entries|));
    }
  }

  lemma {:induction false} RangeIncreases(entries: seq<Entry>, lo: nat, hi: nat)
    requires 1 <= lo && A.Numbered(entries)
    ensures Increasing(Range(entries, lo, hi))
  {
  }

  /**
   What a read returns is one unbroken run of the log, from the window's start or
   from where the tables begin, and an error exactly when an entry of that run is
   too long for its chunk numbers.
   */
  lemma {:induction false} ReadReturns(s: State, a: A.Log, prevLo: nat, lo: nat, hi: nat, rows: seq<EntryRow>)
    requires Refines(Laid, s, a, prevLo) && 1 <= lo && QueryReturns(rows, s, lo, hi)
    ensures var run := Range(a.entries, Max(lo, prevLo), hi);
            && (AllFit(run) <==> Assemble(rows, []) == Entries(run))
            && (!AllFit(run) <==> Assemble(rows, []).LostChunk?)
  {
    LaidIsTagged();
    QueryHeld(Laid, s, a, prevLo, lo, hi, rows);
    RangeRows(a.entries, Max(lo, prevLo), hi);
    RangeIncreases(a.entries, Max(lo, prevLo), hi);
    Readback(Range(a.entries, Max(lo, prevLo), hi), rows);
  }

  /** What a query of the tables a run has left reads as. */
  ghost predicate ReadsAs(rows: seq<EntryRow>, run: seq<Entry>) {
    && (AllFit(run) <==> Assemble(rows, []) == Entries(run))
    && (!AllFit(run) <==> Assemble(rows, []).LostChunk?)
  }

  lemma {:induction false} RunRead(ops: seq<Op>, lo: nat, hi: nat, rows: seq<EntryRow>)
    requires 1 <= lo && QueryReturns(rows, After(Laid, ops), lo, hi)
    ensures ReadsAs(rows, Range(Told(ops).entries, Max(lo, Older(Laid, ops)), hi))
    ensures Older(Laid, ops) <= After(Laid, ops).row.trimUpto + 1
    ensures After(Laid, ops).row.trimUpto == Told(ops).trimmed
    ensures After(Laid, ops).row.lastSeqno == |Told(ops).entries|
  {
    EveryRunRefines(Laid, ops);
    ReadReturns(After(Laid, ops), Told(ops), Older(Laid, ops), lo, hi, rows);
  }

  /**
   A read across two snapshots. The row is read after the first `n` operations, the
   tables are queried after all of them. The result is one unbroken run, from the
   window's start or from where the tables then begin to where the window or the log
   ends; it has every entry of the window still above the watermark of the second
   snapshot, and is the whole window where that watermark has not reached it. It is
   an error exactly when an entry of that run is too long for its chunk numbers.
   */
  lemma {:induction false} SplitRead(ops: seq<Op>, n: nat, from: nat, limit: nat, rows: seq<EntryRow>)
    requires n <= |ops| && limit > 0
    requires var lo := WindowLo(After(Laid, ops[..n]).row, from); QueryReturns(rows, After(Laid, ops), lo, lo + limit - 1)
    ensures var lo := WindowLo(After(Laid, ops[..n]).row, from);
            var s, start := After(Laid, ops), Max(lo, Older(Laid, ops));
            && ReadsAs(rows, Range(Told(ops).entries, start, lo + limit - 1))
            && start <= Max(lo, s.row.trimUpto + 1)
            && (s.row.trimUpto < lo ==> start == lo)
  {
    var lo := WindowLo(After(Laid, ops[..n]).row, from);
    RunRead(ops, lo, lo + limit - 1, rows);
  }

  /**
   What a short read means. That the log ends there follows, for a read that succeeds,
   exactly when the tables still reach down to the window's start at the second
   snapshot, or the log does end inside the window; and the read is short exactly when
   they do not or it does. A caller can tell from the row: a watermark below the window
   leaves the tables reaching down to it.
   */
  lemma {:induction false} ShortReadIff(ops: seq<Op>, n: nat, from: nat, limit: nat, rows: seq<EntryRow>)
    requires n <= |ops| && limit > 0 && Assemble(rows, []).Entries?
    requires var lo := WindowLo(After(Laid, ops[..n]).row, from); QueryReturns(rows, After(Laid, ops), lo, lo + limit - 1)
    ensures var lo := WindowLo(After(Laid, ops[..n]).row, from);
            var s, hi, older := After(Laid, ops), lo + limit - 1, Older(Laid, ops);
            var short := |Assemble(rows, []).entries| < limit;
            && (short <==> older > lo || s.row.lastSeqno < hi)
            && ((short ==> s.row.lastSeqno < hi) <==> older <= lo || s.row.lastSeqno < hi)
            && (s.row.trimUpto < lo ==> older <= lo)
  {
    var lo := WindowLo(After(Laid, ops[..n]).row, from);
    RunRead(ops, lo, lo + limit - 1, rows);
  }

  /** Where nothing commits in between, a read returns exactly what the log holds of its window. */
  lemma {:induction false} QuietRead(ops: seq<Op>, from: nat, limit: nat, rows: seq<EntryRow>)
    requires limit > 0
    requires var lo := WindowLo(After(Laid, ops).row, from);
             QueryReturns(rows, After(Laid, ops), lo, lo + limit - 1)
    ensures WindowLo(After(Laid, ops).row, from) == Max(Max(from, 1), Told(ops).trimmed + 1)
    ensures var lo := WindowLo(After(Laid, ops).row, from);
            ReadsAs(rows, Range(Told(ops).entries, lo, lo + limit - 1))
  {
    WatermarkIsTold(ops);
    RunWindow(ops, WindowLo(After(Laid, ops).row, from), limit, rows);
  }

  lemma {:induction false} WatermarkIsTold(ops: seq<Op>)
    ensures After(Laid, ops).row.trimUpto == Told(ops).trimmed
  {
    EveryRunRefines(Laid, ops);
  }

  lemma {:induction false} RunWindow(ops: seq<Op>, lo: nat, limit: nat, rows: seq<EntryRow>)
    requires After(Laid, ops).row.trimUpto < lo && limit > 0 && QueryReturns(rows, After(Laid, ops), lo, lo + limit - 1)
    ensures ReadsAs(rows, Range(Told(ops).entries, lo, lo + limit - 1))
  {
    EveryRunRefines(Laid, ops);
    WholeWindow(After(Laid, ops), Told(ops), Older(Laid, ops), lo, limit, rows);
  }

  /** A window above the watermark is all in the tables. */
  lemma {:induction false} WholeWindow(s: State, a: A.Log, prevLo: nat, lo: nat, limit: nat, rows: seq<EntryRow>)
    requires Refines(Laid, s, a, prevLo) && s.row.trimUpto < lo && limit > 0 && QueryReturns(rows, s, lo, lo + limit - 1)
    ensures ReadsAs(rows, Range(a.entries, lo, lo + limit - 1))
  {
    ReadReturns(s, a, prevLo, lo, lo + limit - 1, rows);
    assert Max(lo, prevLo) == lo;
  }

  // ---------- what was acknowledged ----------

  lemma {:induction false} CallsOfConcat(o1: seq<Op>, o2: seq<Op>)
    ensures CallsOf(o1 + o2) == CallsOf(o1) + CallsOf(o2)
    decreases |o1|
  {
    if o1 == [] {
      assert o1 + o2 == o2;
    } else {
      assert (o1 + o2)[1..] == o1[1..] + o2;
      CallsOfConcat(o1[1..], o2);
    }
  }

  lemma {:induction false} ToldSplit(ops: seq<Op>, n: nat)
    requires n <= |ops|
    ensures Told(ops) == A.Run(Told(ops[..n]), CallsOf(ops[n..]))
  {
    assert ops == ops[..n] + ops[n..];
    CallsOfConcat(ops[..n], ops[n..]);
    A.RunConcat(A.EMPTY, CallsOf(ops[..n]), CallsOf(ops[n..]));
  }

  /** What is told of a run is told of every run it is the beginning of. */
  lemma {:induction false} ToldPrefix(ops: seq<Op>, n: nat)
    requires n <= |ops|
    ensures Told(ops[..n]).entries <= Told(ops).entries
  {
    ToldSplit(ops, n);
    A.RunKeepsValid(A.EMPTY, CallsOf(ops[..n]));
    A.RunKeepsValid(Told(ops[..n]), CallsOf(ops[n..]));
  }

  lemma {:induction false} ToldNext(ops: seq<Op>, n: nat)
    requires n < |ops|
    ensures Told(ops[..n + 1]) == A.Step(Told(ops[..n]), CallOf(ops[n]))
  {
    assert ops[..n + 1] == ops[..n] + [ops[n]];
    CallsOfConcat(ops[..n], [ops[n]]);
    var last := [CallOf(ops[n])];
    assert CallsOf([ops[n]]) == last && last[1..] == [];
    A.RunConcat(A.EMPTY, CallsOf(ops[..n]), last);
  }

  /** An entry of an append that took effect is in the log at its seqno for good. */
  lemma {:induction false} AckedStays(cut: Cut, ops: seq<Op>, n: nat, k: nat)
    requires n < |ops| && ops[n].Append? && k < |ops[n].payloads| && Admits(After(cut, ops[..n]).row, ops[n])
    ensures var entries, at := Told(ops).entries, ops[n].first + k - 1;
            0 <= at < |entries| && entries[at] == Entry(at + 1, ops[n].epoch, ops[n].payloads[k])
  {
    EveryRunRefines(cut, ops[..n]);
    ToldNext(ops, n);
    ToldPrefix(ops, n + 1);
    var before, at := Told(ops[..n]), ops[n].first + k - 1;
    assert Told(ops[..n + 1]).entries == before.entries + BatchEntries(ops[n].epoch, ops[n].first, ops[n].payloads);
    assert Told(ops[..n + 1]).entries[at] == Entry(at + 1, ops[n].epoch, ops[n].payloads[k]);
  }

  // ---------- the condition is needed ----------

  function Blanks(n: nat): seq<Bytes> {
    seq(n, _ => [])
  }

  /** The rows the two trims below return: the gates of their reclaims. */
  const FIRST_GATE := Row(1, 4096, 1, 0, 1, 0)
  const SECOND_GATE := Row(1, 4196, 4096, 1, 4097, 4096)

  /**
   One half filled; then a trim whose reclaim turns the ring, a hundred entries into
   the other half, and a trim past the first half whose reclaim empties it.
   */
  ghost predicate Turned(ops: seq<Op>) {
    && |ops| == 7
    && ops[0] == Fence(1) && ops[1] == Append(1, 1, Blanks(4096))
    && ops[2] == Trim(1) && ops[3] == Reclaim(FIRST_GATE) && ops[4] == Append(1, 4097, Blanks(100))
    && ops[5] == Trim(4096) && ops[6] == Reclaim(SECOND_GATE)
  }

  /** What a read of ten entries finds that read the row after the half was filled and the tables after it was emptied. */
  ghost predicate ShortBeforeTheEnd(ops: seq<Op>)
    requires |ops| >= 2
  {
    var lo, s := WindowLo(After(Laid, ops[..2]).row, 1), After(Laid, ops);
    && QueryReturns([], s, lo, lo + 9) && Assemble([], []) == Entries([])
    && s.row.lastSeqno == 4196 && s.row.trimUpto == 4096 && lo + 9 == 10
  }

  lemma {:induction false} TurnedIsShort(ops: seq<Op>)
    requires Turned(ops)
    ensures ShortBeforeTheEnd(ops)
    ensures After(Laid, ops[..3]).row == ops[3].gate && After(Laid, ops[..6]).row == ops[6].gate
  {
    var cut := Laid;
    FirstRows(cut, ops);
    LaterRows(cut, ops);
    assert ops[..7] == ops;
    LaidIsTagged();
    NothingBelow(cut, ops);
    assert Ordered([]);
  }

  /**
   The condition is needed: a trim and a truncate between the two snapshots leave a
   read of ten entries with none, on a log with a hundred. Each reclaim of the run is
   gated on the row its own trim returned.
   */
  lemma {:induction false} ShortReadBeforeTheEnd() returns (ops: seq<Op>)
    ensures Turned(ops) && ShortBeforeTheEnd(ops)
    ensures After(Laid, ops[..3]).row == ops[3].gate && After(Laid, ops[..6]).row == ops[6].gate
  {
    ops := TurningRun();
    TurnedIsShort(ops);
  }

  lemma {:induction false} TurningRun() returns (ops: seq<Op>)
    ensures Turned(ops)
  {
    ops := [Fence(1), Append(1, 1, Blanks(4096)), Trim(1), Reclaim(FIRST_GATE), Append(1, 4097, Blanks(100)), Trim(4096),
            Reclaim(SECOND_GATE)];
  }

  /** Once the older half is empty the tables hold nothing below the live one. */
  lemma {:induction false} NothingBelow(cut: Cut, ops: seq<Op>)
    requires Tagged(cut) && After(cut, ops).row.prevHi == 0
    ensures var s := After(cut, ops); forall row: EntryRow :: row.seqno < s.row.curLo ==> (s.slot0 + s.slot1)[row] == 0
  {
    EveryRunRefines(cut, ops);
    var s, a, prevLo := After(cut, ops), Told(ops), Older(cut, ops);
    TablesHoldOneRun(cut, s, a, prevLo);
    forall row: EntryRow | row.seqno < prevLo
      ensures (s.slot0 + s.slot1)[row] == 0
    {
      NotHeld(cut, a.entries, prevLo, |a.entries|, row);
    }
  }

  /** One more operation at the end of a run. */
  lemma {:induction false} RunSnoc(cut: Cut, ops: seq<Op>, n: nat)
    requires n < |ops|
    ensures After(cut, ops[..n + 1]) == Step(cut, After(cut, ops[..n]), ops[n])
  {
    assert ops[..n + 1] == ops[..n] + [ops[n]];
    RunConcat(cut, CREATED, ops[..n], [ops[n]]);
    assert [ops[n]][1..] == [];
  }

  lemma {:induction false} RowAppended(cut: Cut, s: State, first: nat, n: nat)
    requires 0 < n <= 4096 && s.row.epoch == 1 && first == s.row.lastSeqno + 1 && first < 10000
    ensures Step(cut, s, Append(1, first, Blanks(n))).row == s.row.(lastSeqno := first + n - 1)
  {
  }

  lemma {:induction false} FirstRows(cut: Cut, ops: seq<Op>)
    requires Turned(ops)
    ensures After(cut, ops[..2]).row == Row(1, 4096, 0, 0, 1, 0)
    ensures After(cut, ops[..3]).row == FIRST_GATE
    ensures After(cut, ops[..4]).row == Row(1, 4096, 1, 1, 4097, 4096)
  {
    assert After(cut, ops[..0]) == CREATED;
    RunSnoc(cut, ops, 0);
    RunSnoc(cut, ops, 1);
    RowAppended(cut, After(cut, ops[..1]), 1, 4096);
    RunSnoc(cut, ops, 2);
    RunSnoc(cut, ops, 3);
  }

  lemma {:induction false} LaterRows(cut: Cut, ops: seq<Op>)
    requires Turned(ops) && After(cut, ops[..4]).row == Row(1, 4096, 1, 1, 4097, 4096)
    ensures After(cut, ops[..6]).row == SECOND_GATE
    ensures After(cut, ops[..7]).row == Row(1, 4196, 4096, 1, 4097, 0)
  {
    RunSnoc(cut, ops, 4);
    RowAppended(cut, After(cut, ops[..4]), 4097, 100);
    RunSnoc(cut, ops, 5);
    RowTrimmed(cut, After(cut, ops[..5]));
    RunSnoc(cut, ops, 6);
    RowEmptied(cut, After(cut, ops[..6]));
  }

  lemma {:induction false} RowTrimmed(cut: Cut, s: State)
    requires s.row == Row(1, 4196, 1, 1, 4097, 4096)
    ensures Step(cut, s, Trim(4096)).row == SECOND_GATE
  {
  }

  lemma {:induction false} RowEmptied(cut: Cut, s: State)
    requires s.row == SECOND_GATE
    ensures Step(cut, s, Reclaim(SECOND_GATE)).row == Row(1, 4196, 4096, 1, 4097, 0)
  {
  }
}
