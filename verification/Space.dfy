/**
 How much the two halves can hold. A sequential caller appends and trims, and each
 trim is followed at once by a reclaim that commits (store.go:434-462, 534-596).
 */
module Space {
  import opened Words
  import opened Rules
  import opened Codec
  import opened Ring
  import opened Refinement
  import A = AbstractLog

  /** One call of a sequential caller: a fence or an append, or a Trim with the reclaim it makes. */
  datatype Use = Call(op: Op) | Tidy(upTo: nat)

  predicate Proper(use: Use) {
    use.Call? ==> use.op.Fence? || use.op.Append?
  }

  /** A Trim's reclaim is gated on the row the trim itself returned. */
  function UseStep(cut: Cut, s: State, use: Use): State {
    match use
    case Call(op) => Step(cut, s, op)
    case Tidy(upTo) => var t := Step(cut, s, Trim(upTo)); Step(cut, t, Reclaim(t.row))
  }

  function UseRun(cut: Cut, s: State, uses: seq<Use>): State
    decreases |uses|
  {
    if uses == [] then s else UseRun(cut, UseStep(cut, s, uses[0]), uses[1..])
  }

  /** The seqnos appended since the last trim, after one more call. */
  function Since(cut: Cut, s: State, use: Use, since: nat): int {
    if use.Tidy? then 0 else since + UseStep(cut, s, use).row.lastSeqno - s.row.lastSeqno
  }

  /**
   The caller's side of the bargain: at most `d` seqnos appended before the first
   trim and between consecutive ones, and each trim leaves at most `r` entries.
   */
  predicate Frugal(cut: Cut, s: State, uses: seq<Use>, d: nat, r: nat, since: nat)
    decreases |uses|
  {
    uses == [] ||
    var t := UseStep(cut, s, uses[0]);
    && Proper(uses[0])
    && 0 <= Since(cut, s, uses[0], since) <= d
    && (uses[0].Tidy? ==> t.row.lastSeqno - t.row.trimUpto <= r)
    && Frugal(cut, t, uses[1..], d, r, Since(cut, s, uses[0], since))
  }

  /** The most the halves may hold together. */
  function Bound(d: nat, r: nat): nat {
    Max(ROTATE_AFTER, r) + Max(r, 1) + 2 * d - 2
  }

  /** How large each half may have become. */
  predicate Within(row: Row, prevLo: nat, d: nat, r: nat, since: nat) {
    && since <= d
    && row.lastSeqno + 1 - row.curLo <= (if row.prevHi == 0 then Max(ROTATE_AFTER, r) - 1 else Max(r, 1) - 1) + since
    && row.curLo - prevLo <= Max(ROTATE_AFTER, r) - 1 + d
  }

  function PrevLoUse(cut: Cut, s: State, use: Use, prevLo: nat): nat {
    match use
    case Call(op) => PrevLoAfter(s.row, op, prevLo)
    case Tidy(upTo) => var t := Step(cut, s, Trim(upTo)); PrevLoAfter(t.row, Reclaim(t.row), prevLo)
  }

  function ToldUse(a: A.Log, use: Use): A.Log {
    match use
    case Call(op) => A.Step(a, CallOf(op))
    case Tidy(upTo) => A.Step(a, A.Trim(upTo))
  }

  lemma {:induction false} TrimRefines(cut: Cut, s: State, a: A.Log, prevLo: nat, upTo: nat)
    requires Refines(cut, s, a, prevLo)
    ensures Refines(cut, Step(cut, s, Trim(upTo)), A.Step(a, A.Trim(upTo)), prevLo)
  {
    StepRefines(cut, s, a, prevLo, Trim(upTo));
  }

  lemma {:induction false} ReclaimRefines(cut: Cut, t: State, a: A.Log, prevLo: nat)
    requires Refines(cut, t, a, prevLo)
    ensures Refines(cut, Step(cut, t, Reclaim(t.row)), a, PrevLoAfter(t.row, Reclaim(t.row), prevLo))
  {
    ReclaimFits(cut, t, a, prevLo, Reclaim(t.row));
  }

  lemma {:induction false} UseRefines(cut: Cut, s: State, a: A.Log, prevLo: nat, use: Use)
    requires Refines(cut, s, a, prevLo)
    ensures Refines(cut, UseStep(cut, s, use), ToldUse(a, use), PrevLoUse(cut, s, use, prevLo))
  {
    match use
    case Call(op) => StepRefines(cut, s, a, prevLo, op);
    case Tidy(upTo) =>
      TrimRefines(cut, s, a, prevLo, upTo);
      ReclaimRefines(cut, Step(cut, s, Trim(upTo)), A.Step(a, A.Trim(upTo)), prevLo);
  }

  ghost function PrevLoUses(cut: Cut, s: State, uses: seq<Use>, prevLo: nat): nat
    decreases |uses|
  {
    if uses == [] then prevLo
    else PrevLoUses(cut, UseStep(cut, s, uses[0]), uses[1..], PrevLoUse(cut, s, uses[0], prevLo))
  }

  ghost function ToldUses(a: A.Log, uses: seq<Use>): A.Log
    decreases |uses|
  {
    if uses == [] then a else ToldUses(ToldUse(a, uses[0]), uses[1..])
  }

  lemma {:induction false} UsesRefine(cut: Cut, s: State, a: A.Log, prevLo: nat, uses: seq<Use>)
    requires Refines(cut, s, a, prevLo)
    ensures Refines(cut, UseRun(cut, s, uses), ToldUses(a, uses), PrevLoUses(cut, s, uses, prevLo))
    decreases |uses|
  {
    if uses != [] {
      UseRefines(cut, s, a, prevLo, uses[0]);
      UsesRefine(cut, UseStep(cut, s, uses[0]), ToldUse(a, uses[0]), PrevLoUse(cut, s, uses[0], prevLo), uses[1..]);
    }
  }

  /** A reclaim right after its trim: the older half is emptied or short of being passed, and the ring turns or is short. */
  lemma {:induction false} TidyStaysWithin(row: Row, a: A.Log, prevLo: nat, d: nat, r: nat, since: nat)
    requires RowFits(row, a, prevLo) && Within(row, prevLo, d, r, since) && row.lastSeqno - row.trimUpto <= r
    ensures Within(Reclaimed(row), PrevLoAfter(row, Reclaim(row), prevLo), d, r, 0)
  {
    RingTestsAreExact(row, a, prevLo);
  }

  /** What a reclaim with the row itself as its gate makes of the row. */
  function Reclaimed(row: Row): Row {
    var (truncate, rotate) := row.ReclaimSteps(true);
    var cleared := if truncate then row.Cleared() else row;
    if rotate then cleared.Rotated() else cleared
  }

  lemma {:induction false} ReclaimedRow(cut: Cut, t: State)
    ensures Step(cut, t, Reclaim(t.row)).row == Reclaimed(t.row)
  {
  }

  lemma {:induction false} CallStaysWithin(cut: Cut, s: State, a: A.Log, prevLo: nat, op: Op, d: nat, r: nat, since: nat)
    requires RowFits(s.row, a, prevLo) && Within(s.row, prevLo, d, r, since) && Proper(Call(op))
    requires 0 <= Since(cut, s, Call(op), since) <= d
    ensures Within(Step(cut, s, op).row, prevLo, d, r, Since(cut, s, Call(op), since))
  {
    var t := Step(cut, s, op);
    assert t.row.curLo == s.row.curLo && t.row.prevHi == s.row.prevHi;
  }

  lemma {:induction false} TrimmedRow(cut: Cut, s: State, a: A.Log, prevLo: nat, upTo: nat, d: nat, r: nat, since: nat)
    requires RowFits(s.row, a, prevLo) && Within(s.row, prevLo, d, r, since)
    ensures var t := Step(cut, s, Trim(upTo));
            && RowFits(t.row, A.Step(a, A.Trim(upTo)), prevLo) && Within(t.row, prevLo, d, r, since)
            && Reclaimed(t.row).lastSeqno == t.row.lastSeqno && Reclaimed(t.row).trimUpto == t.row.trimUpto
  {
  }

  lemma {:induction false} UseStaysWithin(cut: Cut, s: State, a: A.Log, prevLo: nat, use: Use, d: nat, r: nat, since: nat)
    requires RowFits(s.row, a, prevLo) && Within(s.row, prevLo, d, r, since)
    requires Proper(use) && 0 <= Since(cut, s, use, since) <= d
    requires var t := UseStep(cut, s, use).row; use.Tidy? ==> t.lastSeqno - t.trimUpto <= r
    ensures Within(UseStep(cut, s, use).row, PrevLoUse(cut, s, use, prevLo), d, r, Since(cut, s, use, since))
  {
    match use
    case Call(op) => CallStaysWithin(cut, s, a, prevLo, op, d, r, since);
    case Tidy(upTo) =>
      var t := Step(cut, s, Trim(upTo));
      TrimmedRow(cut, s, a, prevLo, upTo, d, r, since);
      ReclaimedRow(cut, t);
      TidyStaysWithin(t.row, A.Step(a, A.Trim(upTo)), prevLo, d, r, since);
  }

  // ---------- counting seqnos ----------

  /** Every seqno the tables have a row of. */
  function SeqnosIn(s: State): set<nat> {
    set row | row in s.slot0 + s.slot1 :: row.seqno
  }

  function Span(lo: nat, hi: int): (span: set<nat>)
    ensures forall n: nat :: n in span <==> lo <= n <= hi
    ensures |span| == Max(0, hi + 1 - lo)
    decreases hi
  {
    if hi < lo then {} else Span(lo, hi - 1) + {hi}
  }

  /** Every entry has a row. */
  ghost predicate Solid(cut: Cut) {
    forall e :: |cut(e)| > 0
  }

  lemma {:induction false} HeldHasEvery(cut: Cut, entries: seq<Entry>, lo: nat, hi: int, n: nat)
    requires Tagged(cut) && Solid(cut) && A.Numbered(entries) && 1 <= lo <= n <= hi <= |entries|
    ensures exists row :: row in Held(cut, entries, lo, hi) && row.seqno == n
    decreases hi
  {
    if n == hi {
      var table := cut(entries[hi - 1]);
      assert |table| > 0;
      var row :| row in table;
      assert row in Held(cut, entries, lo, hi) && row.seqno == n;
    } else {
      HeldHasEvery(cut, entries, lo, hi - 1, n);
      var row :| row in Held(cut, entries, lo, hi - 1) && row.seqno == n;
      assert row in Held(cut, entries, lo, hi);
    }
  }

  /** The tables hold no seqno outside prevLo..last, and every one inside it where every entry has a row. */
  lemma {:induction false} SeqnosWithinSpan(cut: Cut, s: State, a: A.Log, prevLo: nat)
    requires Tagged(cut) && A.Numbered(a.entries) && Mirrors(cut, s, a, prevLo)
    ensures SeqnosIn(s) <= Span(prevLo, |a.entries|)
    ensures Solid(cut) ==> SeqnosIn(s) == Span(prevLo, |a.entries|)
  {
    TablesHoldOneRun(cut, s, a, prevLo);
    forall row | row in s.slot0 + s.slot1
      ensures row.seqno in Span(prevLo, |a.entries|)
    {
      HeldSeqnos(cut, a.entries, prevLo, |a.entries|, row);
    }
    if Solid(cut) {
      forall n | n in Span(prevLo, |a.entries|)
        ensures n in SeqnosIn(s)
      {
        HeldHasEvery(cut, a.entries, prevLo, |a.entries|, n);
      }
    }
  }

  lemma {:induction false} SubsetSize(a: set<nat>, b: set<nat>)
    requires a <= b
    ensures |a| <= |b|
    decreases |a|
  {
    if a != {} {
      var x :| x in a;
      SubsetSize(a - {x}, b - {x});
    }
  }

  /** The seqnos appended since the last trim at the end of a run. */
  function SinceRun(cut: Cut, s: State, uses: seq<Use>, since: nat): nat
    decreases |uses|
  {
    if uses == [] then since
    else SinceRun(cut, UseStep(cut, s, uses[0]), uses[1..], Max(0, Since(cut, s, uses[0], since)))
  }

  /** A caller that keeps the bargain keeps both halves within their sizes. */
  lemma {:induction false} FrugalKeepsWithin(cut: Cut, s: State, a: A.Log, prevLo: nat, uses: seq<Use>, d: nat, r: nat, since: nat)
    requires Refines(cut, s, a, prevLo) && Within(s.row, prevLo, d, r, since)
    requires Frugal(cut, s, uses, d, r, since)
    ensures Refines(cut, UseRun(cut, s, uses), ToldUses(a, uses), PrevLoUses(cut, s, uses, prevLo))
    ensures Within(UseRun(cut, s, uses).row, PrevLoUses(cut, s, uses, prevLo), d, r, SinceRun(cut, s, uses, since))
    decreases |uses|
  {
    if uses != [] {
      UseRefines(cut, s, a, prevLo, uses[0]);
      UseStaysWithin(cut, s, a, prevLo, uses[0], d, r, since);
      FrugalKeepsWithin(cut, UseStep(cut, s, uses[0]), ToldUse(a, uses[0]), PrevLoUse(cut, s, uses[0], prevLo),
                        uses[1..], d, r, Since(cut, s, uses[0], since));
    }
  }

  lemma {:induction false} WithinIsBounded(cut: Cut, s: State, a: A.Log, prevLo: nat, d: nat, r: nat, since: nat)
    requires Tagged(cut) && Refines(cut, s, a, prevLo) && Within(s.row, prevLo, d, r, since)
    ensures |SeqnosIn(s)| <= Bound(d, r)
  {
    SeqnosWithinSpan(cut, s, a, prevLo);
    SubsetSize(SeqnosIn(s), Span(prevLo, |a.entries|));
  }

  /**
   The space bound. On every run of a frugal caller, at every point of it, the two
   halves together hold no more than max(4096, r) + r + 2d seqnos; more precisely
   two fewer (one fewer where trims leave nothing).
   */
  lemma {:induction false} SpaceIsBounded(cut: Cut, uses: seq<Use>, d: nat, r: nat)
    requires Tagged(cut) && Frugal(cut, CREATED, uses, d, r, 0)
    ensures |SeqnosIn(UseRun(cut, CREATED, uses))| <= Bound(d, r) <= Max(ROTATE_AFTER, r) + r + 2 * d
  {
    FrugalKeepsWithin(cut, CREATED, A.EMPTY, 1, uses, d, r, 0);
    WithinIsBounded(cut, UseRun(cut, CREATED, uses), ToldUses(A.EMPTY, uses), PrevLoUses(cut, CREATED, uses, 1), d, r,
                    SinceRun(cut, CREATED, uses, 0));
  }

  // ---------- the bound is reached ----------

  /** A run that keeps the bargain one call longer. */
  lemma {:induction false} OneMoreUse(cut: Cut, s: State, uses: seq<Use>, use: Use, d: nat, r: nat, since: nat, prevLo: nat)
    requires Frugal(cut, s, uses, d, r, since) && Proper(use)
    requires 0 <= Since(cut, UseRun(cut, s, uses), use, SinceRun(cut, s, uses, since)) <= d
    requires var t := UseStep(cut, UseRun(cut, s, uses), use); use.Tidy? ==> t.row.lastSeqno - t.row.trimUpto <= r
    ensures Frugal(cut, s, uses + [use], d, r, since)
    ensures UseRun(cut, s, uses + [use]) == UseStep(cut, UseRun(cut, s, uses), use)
    ensures SinceRun(cut, s, uses + [use], since) == Since(cut, UseRun(cut, s, uses), use, SinceRun(cut, s, uses, since))
    ensures PrevLoUses(cut, s, uses + [use], prevLo)
         == PrevLoUse(cut, UseRun(cut, s, uses), use, PrevLoUses(cut, s, uses, prevLo))
    decreases |uses|
  {
    var more := uses + [use];
    if uses == [] {
      assert more[1..] == [];
    } else {
      assert more[1..] == uses[1..] + [use];
      OneMoreUse(cut, UseStep(cut, s, uses[0]), uses[1..], use, d, r, Since(cut, s, uses[0], since),
                 PrevLoUse(cut, s, uses[0], prevLo));
    }
  }

  /** A run that keeps the bargain and ends with this row, this start of the older half, this much since its last trim. */
  ghost predicate Reached(cut: Cut, uses: seq<Use>, d: nat, r: nat, since: nat, row: Row, prevLo: nat) {
    && Frugal(cut, CREATED, uses, d, r, 0) && SinceRun(cut, CREATED, uses, 0) == since
    && UseRun(cut, CREATED, uses).row == row && PrevLoUses(cut, CREATED, uses, 1) == prevLo
  }

  function Blanks(n: nat): seq<Bytes> {
    seq(n, _ => [])
  }

  lemma {:induction false} AppendedRow(cut: Cut, s: State, n: nat)
    requires n > 0 && s.row.epoch == 1 && s.row.lastSeqno + n < TWO63
    ensures Step(cut, s, Append(1, s.row.lastSeqno + 1, Blanks(n))).row == s.row.(lastSeqno := s.row.lastSeqno + n)
  {
  }

  lemma {:induction false} AppendMore(cut: Cut, uses: seq<Use>, d: nat, r: nat, since: nat, row: Row, prevLo: nat, n: nat)
    returns (more: seq<Use>)
    requires Reached(cut, uses, d, r, since, row, prevLo)
    requires n > 0 && row.epoch == 1 && row.lastSeqno + n < TWO63 && since + n <= d
    ensures Reached(cut, more, d, r, since + n, row.(lastSeqno := row.lastSeqno + n), prevLo)
  {
    var use := Call(Append(1, row.lastSeqno + 1, Blanks(n)));
    AppendedRow(cut, UseRun(cut, CREATED, uses), n);
    OneMoreUse(cut, CREATED, uses, use, d, r, 0, 1);
    more := uses + [use];
  }

  lemma {:induction false} TidiedRow(cut: Cut, s: State, upTo: nat)
    requires 0 < upTo && s.row.trimUpto <= upTo <= s.row.lastSeqno < TWO63
    ensures UseStep(cut, s, Tidy(upTo)).row == Reclaimed(s.row.(trimUpto := upTo))
    ensures Step(cut, s, Trim(upTo)).row == s.row.(trimUpto := upTo)
  {
    ReclaimedRow(cut, Step(cut, s, Trim(upTo)));
  }

  lemma {:induction false} TidyMore(cut: Cut, uses: seq<Use>, d: nat, r: nat, since: nat, row: Row, prevLo: nat, upTo: nat)
    returns (more: seq<Use>)
    requires Reached(cut, uses, d, r, since, row, prevLo)
    requires 0 < upTo && row.trimUpto <= upTo <= row.lastSeqno < TWO63 && row.lastSeqno - upTo <= r
    ensures var trimmed := row.(trimUpto := upTo);
            Reached(cut, more, d, r, 0, Reclaimed(trimmed), PrevLoAfter(trimmed, Reclaim(trimmed), prevLo))
  {
    TidiedRow(cut, UseRun(cut, CREATED, uses), upTo);
    OneMoreUse(cut, CREATED, uses, Tidy(upTo), d, r, 0, 1);
    more := uses + [Tidy(upTo)];
  }

  lemma {:induction false} FenceFirst(cut: Cut, d: nat, r: nat) returns (uses: seq<Use>)
    ensures Reached(cut, uses, d, r, 0, Row(1, 0, 0, 0, 1, 0), 1)
  {
    OneMoreUse(cut, CREATED, [], Call(Fence(1)), d, r, 0, 1);
    uses := [] + [Call(Fence(1))];
  }

  /** The live half of a new log, filled to n and short of turning: one entry at a time, each trimmed at once. */
  lemma {:induction false} FillHalf(cut: Cut, d: nat, r: nat, n: nat) returns (uses: seq<Use>)
    requires d > 0 && n < ROTATE_AFTER
    ensures Reached(cut, uses, d, r, 0, Row(1, n, n, 0, 1, 0), 1)
    decreases n
  {
    if n == 0 {
      uses := FenceFirst(cut, d, r);
    } else {
      uses := FillHalf(cut, d, r, n - 1);
      uses := AppendMore(cut, uses, d, r, 0, Row(1, n - 1, n - 1, 0, 1, 0), 1, 1);
      ShortOfFull(n);
      uses := TidyMore(cut, uses, d, r, 1, Row(1, n, n - 1, 0, 1, 0), 1, n);
    }
  }

  /** A live half that is not full stays, whatever a trim takes of it. */
  lemma {:induction false} ShortOfFull(n: nat)
    requires 0 < n < ROTATE_AFTER
    ensures var row := Row(1, n, n, 0, 1, 0); Reclaimed(row) == row && PrevLoAfter(row, Reclaim(row), 1) == 1
  {
  }

  /** A row right after a turn at seqno `at`, with k entries in the live half, kept by a trim just short of the older one. */
  function Turned(at: nat, k: nat, slot: Slot): Row
    requires at > 0
  {
    Row(1, at + k, at - 1, slot, at + 1, at)
  }

  /** The live half grown to k entries while the older one is still held. */
  lemma {:induction false} GrowHalf(cut: Cut, uses: seq<Use>, d: nat, r: nat, at: nat, slot: Slot, prevLo: nat, k: nat)
    returns (more: seq<Use>)
    requires at > 1 && Reached(cut, uses, d, r, 0, Turned(at, 0, slot), prevLo)
    requires d > 0 && k < r && at + k < TWO63
    ensures Reached(cut, more, d, r, 0, Turned(at, k, slot), prevLo)
    decreases k
  {
    if k == 0 {
      more := uses;
    } else {
      more := GrowHalf(cut, uses, d, r, at, slot, prevLo, k - 1);
      more := AppendMore(cut, more, d, r, 0, Turned(at, k - 1, slot), prevLo, 1);
      StillHeld(at, k, slot, prevLo);
      more := TidyMore(cut, more, d, r, 1, Turned(at, k, slot), prevLo, at - 1);
    }
  }

  /** An older half that no trim has passed keeps the ring as it is. */
  lemma {:induction false} StillHeld(at: nat, k: nat, slot: Slot, prevLo: nat)
    requires at > 0 && at + k < TWO63
    ensures var row := Turned(at, k, slot); Reclaimed(row) == row && PrevLoAfter(row, Reclaim(row), prevLo) == prevLo
  {
  }

  /** A full live half with an empty other one turns, under a trim that leaves an entry or nothing. */
  lemma {:induction false} TurnFull(at: nat, upTo: nat)
    requires ROTATE_AFTER <= at < TWO63 && 0 < upTo <= at
    ensures var row := Row(1, at, upTo, 0, 1, 0);
            && Reclaimed(row) == Row(1, at, upTo, 1, at + 1, at) && PrevLoAfter(row, Reclaim(row), 1) == 1
  {
  }

  /** A full live half turns in the very reclaim that empties the other one. */
  lemma {:induction false} TurnAgain(at: nat, k: nat, prevLo: nat)
    requires at > 0 && ROTATE_AFTER <= k && at + k < TWO63
    ensures var row := Turned(at, k, 1).(trimUpto := at + k - 1);
            && Reclaimed(row) == Turned(at + k, 0, 0) && PrevLoAfter(row, Reclaim(row), prevLo) == at + 1
  {
  }

  /** The first turn, as late as it can be: after a trim one short of it and as much as may follow. */
  lemma {:induction false} LateTurn(cut: Cut, d: nat, r: nat, kept: nat) returns (uses: seq<Use>)
    requires d > 0 && kept <= 1 && kept <= r && ROTATE_AFTER + d <= TWO63
    ensures var at := ROTATE_AFTER - 1 + d; Reached(cut, uses, d, r, 0, Row(1, at, at - kept, 1, at + 1, at), 1)
  {
    var n := ROTATE_AFTER - 1;
    uses := FillHalf(cut, d, r, n);
    uses := AppendMore(cut, uses, d, r, 0, Row(1, n, n, 0, 1, 0), 1, d);
    uses := TidyMore(cut, uses, d, r, d, Row(1, n + d, n, 0, 1, 0), 1, n + d - kept);
    TurnFull(n + d, n + d - kept);
  }

  /** Where trims may leave something: the older half as left by the first turn, the live one grown and overfilled. */
  lemma {:induction false} BothHalves(cut: Cut, d: nat, r: nat) returns (uses: seq<Use>)
    requires d > 0 && r > 0 && ROTATE_AFTER + r + 2 * d < TWO63
    ensures Reached(cut, uses, d, r, d, Turned(ROTATE_AFTER - 1 + d, r - 1 + d, 1), 1)
  {
    var at := ROTATE_AFTER - 1 + d;
    uses := LateTurn(cut, d, r, 1);
    uses := GrowHalf(cut, uses, d, r, at, 1, 1, r - 1);
    uses := AppendMore(cut, uses, d, r, 0, Turned(at, r - 1, 1), 1, d);
  }

  /** Where trims may leave more than a half's worth: both halves grown and overfilled. */
  lemma {:induction false} BothGrown(cut: Cut, d: nat, r: nat) returns (uses: seq<Use>)
    requires d > 0 && r > ROTATE_AFTER && ROTATE_AFTER + 2 * r + 3 * d < TWO63
    ensures var at := ROTATE_AFTER - 1 + d;
            Reached(cut, uses, d, r, d, Turned(at + (r - 1 + d), r - 1 + d, 0), at + 1)
  {
    var at, k := ROTATE_AFTER - 1 + d, r - 1 + d;
    uses := BothHalves(cut, d, r);
    uses := TidyMore(cut, uses, d, r, d, Turned(at, k, 1), 1, at + k - 1);
    TurnAgain(at, k, 1);
    uses := GrowHalf(cut, uses, d, r, at + k, 0, at + 1, r - 1);
    uses := AppendMore(cut, uses, d, r, 0, Turned(at + k, r - 1, 0), at + 1, d);
  }

  lemma {:induction false} WholeSpan(cut: Cut, uses: seq<Use>, d: nat, r: nat, since: nat, row: Row, prevLo: nat)
    requires Tagged(cut) && Solid(cut) && Reached(cut, uses, d, r, since, row, prevLo)
    ensures |SeqnosIn(UseRun(cut, CREATED, uses))| == row.lastSeqno + 1 - prevLo
  {
    UsesRefine(cut, CREATED, A.EMPTY, 1, uses);
    SeqnosWithinSpan(cut, UseRun(cut, CREATED, uses), ToldUses(A.EMPTY, uses), prevLo);
  }

  /**
   The bound is exact, whatever a trim may leave and however much may be appended in
   between, if that is anything at all: some caller that keeps the bargain reaches it.
   */
  lemma {:induction false} BoundIsReached(cut: Cut, d: nat, r: nat) returns (uses: seq<Use>)
    requires Tagged(cut) && Solid(cut)
    requires d > 0 && ROTATE_AFTER + 2 * r + 3 * d < TWO63
    ensures Frugal(cut, CREATED, uses, d, r, 0)
    ensures |SeqnosIn(UseRun(cut, CREATED, uses))| == Bound(d, r)
  {
    var at := ROTATE_AFTER - 1 + d;
    if r == 0 {
      uses := LateTurn(cut, d, r, 0);
      uses := AppendMore(cut, uses, d, r, 0, Row(1, at, at, 1, at + 1, at), 1, d);
      WholeSpan(cut, uses, d, r, d, Row(1, at + d, at, 1, at + 1, at), 1);
    } else if r <= ROTATE_AFTER {
      uses := BothHalves(cut, d, r);
      WholeSpan(cut, uses, d, r, d, Turned(at, r - 1 + d, 1), 1);
    } else {
      uses := BothGrown(cut, d, r);
      WholeSpan(cut, uses, d, r, d, Turned(at + (r - 1 + d), r - 1 + d, 0), at + 1);
    }
  }
}
