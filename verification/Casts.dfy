/**
 The statements compare bigint columns with int64 casts of uint64 arguments. When
 do those comparisons say what the rules on uint64 say? Each lemma answers for
 every row the columns can hold, in both directions.
 */
module Casts {
  import opened Words
  import opened Rules

  /** A value a non-negative bigint column can hold, and a uint64 argument. */
  predicate Column(n: int) {
    0 <= n < TWO63
  }

  predicate Word(n: int) {
    0 <= n < TWO64
  }

  predicate FenceWhere(held: int, epoch: nat) {
    held <= ToInt64(epoch)
  }

  predicate AppendWhere(owner: int, written: int, epoch: nat, first: nat) {
    owner == ToInt64(epoch) && written == ToInt64(Sub64(first, 1))
  }

  function TrimSet(trimUpto: int, last: int, upTo: nat): int {
    Max(trimUpto, Min(ToInt64(upTo), last))
  }

  predicate Between(seqno: int, lo: nat, hi: nat) {
    ToInt64(lo) <= seqno <= ToInt64(hi)
  }

  /** A fence is decided by the rule exactly when its epoch is below 2^63; a larger one is never admitted. */
  lemma {:induction false} FenceCast(held: int, epoch: nat)
    requires Column(held) && Word(epoch)
    ensures (FenceWhere(held, epoch) <==> FenceRefusal(held, epoch) == None) <==> epoch < TWO63
    ensures FenceWhere(held, epoch) <==> FenceMatches(held, epoch)
  {
  }

  /** An append is decided by the rule for every epoch and every first seqno. */
  lemma {:induction false} AppendCast(owner: int, written: int, epoch: nat, first: nat)
    requires Column(owner) && Column(written) && Word(epoch) && Word(first) && epoch > 0 && first >= FIRST_SEQNO
    ensures AppendWhere(owner, written, epoch, first)
            <==> AppendRefusal(epoch, first, AppendState(owner, written)) == None
  {
  }

  /** The last seqno an admitted append stores is the batch's own exactly when that is below 2^63. */
  lemma {:induction false} LastSeqnoCast(owner: int, written: int, epoch: nat, first: nat, payloads: nat)
    requires Column(owner) && Column(written) && Word(epoch) && Word(first) && Column(payloads)
    requires AppendWhere(owner, written, epoch, first) && CheckAppend(epoch, first, payloads).Admitted?
    ensures ToInt64(CheckAppend(epoch, first, payloads).last) == first + payloads - 1 <==> first + payloads <= TWO63
  {
    assert first == written + 1;
    assert Add64(first, payloads) == first + payloads;
  }

  /** A trim moves the watermark as the rule says exactly when upTo is below 2^63 or there is nothing to trim. */
  lemma {:induction false} TrimCast(trimUpto: int, last: int, upTo: nat)
    requires Column(trimUpto) && Column(last) && trimUpto <= last && Word(upTo)
    ensures TrimSet(trimUpto, last, upTo) == Max(trimUpto, Min(upTo, last)) <==> upTo < TWO63 || trimUpto == last
    ensures TrimSet(trimUpto, last, upTo) == Max(trimUpto, Min(TrimReach(upTo), last))
  {
  }

  /** The window a read of `limit` entries from `lo` means, and the one its statement selects. */
  predicate Meant(seqno: int, lo: nat, limit: nat) {
    lo <= seqno <= lo + limit - 1
  }

  predicate Selected(seqno: int, lo: nat, limit: nat) {
    Between(seqno, lo, Sub64(Add64(lo, limit), 1))
  }

  predicate Entry(seqno: int) {
    FIRST_SEQNO <= seqno < TWO63
  }

  /** Whether a window stays clear of both ends of the number range. */
  predicate Clear(lo: nat, limit: nat) {
    lo + limit <= TWO63 || (lo >= TWO63 && lo + limit <= TWO64 + 1)
  }

  lemma {:induction false} WindowEnd(lo: nat, limit: nat)
    requires FIRST_SEQNO <= lo < TWO64 && 0 < limit < TWO63
    ensures var hi := lo + limit - 1;
            Sub64(Add64(lo, limit), 1) == if hi < TWO64 then hi else hi - TWO64
  {
  }

  /**
   A read selects the entries it means exactly when its window is clear. The upper
   end is computed in wrapping arithmetic from a limit that may be as large as the
   largest int64: past 2^63 the window selects nothing, past 2^64 it selects the
   log's beginning.
   */
  lemma {:induction false} WindowCast(lo: nat, limit: nat)
    requires FIRST_SEQNO <= lo < TWO64 && 0 < limit < TWO63
    ensures (forall seqno: int :: Entry(seqno) ==> (Selected(seqno, lo, limit) <==> Meant(seqno, lo, limit)))
            <==> Clear(lo, limit)
  {
    WindowEnd(lo, limit);
    if lo < TWO63 && lo + limit > TWO63 {
      assert Entry(lo) && Meant(lo, lo, limit) && !Selected(lo, lo, limit);
    }
    if lo >= TWO63 && lo + limit > TWO64 + 1 {
      assert Entry(1) && Selected(1, lo, limit) && !Meant(1, lo, limit);
    }
  }

  /** Reading from the second entry with the largest limit there is finds nothing. */
  lemma {:induction false} LargestLimitReadsNothing(seqno: int)
    requires Entry(seqno)
    ensures !Selected(seqno, 2, TWO63 - 1)
  {
    WindowEnd(2, TWO63 - 1);
  }

  /** Reading ten entries from the largest seqno there is finds the first eight of the log. */
  lemma {:induction false} LargestSeqnoReadsTheStart(seqno: int)
    requires Entry(seqno)
    ensures Selected(seqno, TWO64 - 1, 10) <==> seqno <= 8
  {
    WindowEnd(TWO64 - 1, 10);
  }
}
