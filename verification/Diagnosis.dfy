/**
 A refused statement is explained by reading the row once more, in a second
 snapshot (store.go: fenceRefused, appendRefused). What can that reading say?
 */
module Diagnosis {
  import opened Words
  import opened Rules
  import opened Codec
  import opened Ring

  datatype Diagnosis = Named(refusal: Refusal) | NoSuchLog | Unnamed

  /** appendRefused: a log that is not there is a log nobody has fenced. */
  function DiagnoseAppend(found: Option<Row>, epoch: nat, first: nat): Diagnosis
    requires epoch > 0 && first >= FIRST_SEQNO
  {
    var state := if found.None? then AppendState(0, 0) else found.value.Found();
    match AppendRefusal(epoch, first, state)
    case Some(r) => Named(r)
    case None => Unnamed
  }

  function DiagnoseFence(found: Option<Row>, epoch: nat): Diagnosis {
    if found.None? then NoSuchLog else
      match FenceRefusal(found.value.epoch, epoch)
      case Some(r) => Named(r)
      case None => Unnamed
  }

  /**
   Whether the second reading may replace the first: it names the refusal itself or
   one that outranks it. A gap ranks last, so any name may replace it, and it may
   also turn out to have closed, which the program leaves unnamed.
   */
  predicate Upholds(first: Diagnosis, second: Diagnosis) {
    match first
    case Named(ErrFenced) => second == Named(ErrFenced)
    case Named(ErrAlreadyWritten) => second == Named(ErrAlreadyWritten) || second == Named(ErrFenced)
    case Named(ErrGap) => true
    case _ => false
  }

  /** The diagnosis after `ops` have run on the row that refused. */
  ghost function DiagnosedAfter(cut: Cut, s: State, ops: seq<Op>, epoch: nat, first: nat): Diagnosis
    requires epoch > 0 && first >= FIRST_SEQNO
  {
    DiagnoseAppend(Some(Run(cut, s, ops).row), epoch, first)
  }

  /** A refusal by a row at or above the appender's epoch is upheld whatever runs before the second reading. */
  lemma {:induction false} RefusalUpheld(cut: Cut, s: State, ops: seq<Op>, epoch: nat, first: nat)
    requires epoch > 0 && first >= FIRST_SEQNO
    requires !UpdateMatches(epoch, first, s.row.Found()) && epoch <= s.row.epoch
    ensures Upholds(DiagnoseAppend(Some(s.row), epoch, first), DiagnosedAfter(cut, s, ops, epoch, first))
  {
    RunOnlyAdvances(cut, s, ops);
  }

  /** An epoch the column cannot hold never owns the log, so its appends are fenced off for good. */
  lemma {:induction false} TooLargeIsFenced(cut: Cut, s: State, ops: seq<Op>, epoch: nat, first: nat)
    requires epoch >= TWO63 && first >= FIRST_SEQNO && s.row.epoch < epoch
    ensures DiagnosedAfter(cut, s, ops, epoch, first) == Named(ErrFenced)
  {
    OwnerStaysBelow(cut, s, ops, epoch);
  }

  lemma {:induction false} OwnerStaysBelow(cut: Cut, s: State, ops: seq<Op>, epoch: nat)
    requires epoch >= TWO63 && s.row.epoch < epoch
    ensures Run(cut, s, ops).row.epoch < epoch
    decreases |ops|
  {
    if ops != [] {
      OwnerStaysBelow(cut, Step(cut, s, ops[0]), ops[1..], epoch);
    }
  }

  /**
   When the second reading can be trusted. It upholds the refusal for every
   continuation exactly when the appender's epoch is at most the row's or is one
   no fence can take. Any other epoch has yet to fence the log: it is refused as
   fenced off, and a fence at it before the second reading makes that reading say
   something lower.
   */
  lemma {:induction false} UpheldIffFenced(cut: Cut, s: State, epoch: nat, first: nat)
    requires epoch > 0 && first >= FIRST_SEQNO && !UpdateMatches(epoch, first, s.row.Found())
    ensures (forall ops: seq<Op> ::
               Upholds(DiagnoseAppend(Some(s.row), epoch, first), DiagnosedAfter(cut, s, ops, epoch, first)))
            <==> epoch <= s.row.epoch || epoch >= TWO63
  {
    if epoch <= s.row.epoch || epoch >= TWO63 {
      forall ops: seq<Op>
        ensures Upholds(DiagnoseAppend(Some(s.row), epoch, first), DiagnosedAfter(cut, s, ops, epoch, first))
      {
        if epoch <= s.row.epoch {
          RefusalUpheld(cut, s, ops, epoch, first);
        } else {
          TooLargeIsFenced(cut, s, ops, epoch, first);
        }
      }
    } else {
      var takeover: seq<Op> := [Fence(epoch)];
      RunOne(cut, s, Fence(epoch));
      assert !Upholds(DiagnoseAppend(Some(s.row), epoch, first), DiagnosedAfter(cut, s, takeover, epoch, first));
    }
  }

  /** Every outcome a gap is allowed does occur: the gap can close, be overrun, be fenced off, or stay. */
  lemma {:induction false} GapMayBecomeAnything(cut: Cut, s: State, payload: Bytes)
    requires 0 < s.row.epoch < TWO63 - 1 && s.row.lastSeqno + 4 < TWO63
    ensures var e, first := s.row.epoch, s.row.lastSeqno + 2;
            var one: Op := Append(e, first - 1, [payload]);
            var two: Op := Append(e, first - 1, [payload, payload]);
            && DiagnosedAfter(cut, s, [], e, first) == Named(ErrGap)
            && DiagnosedAfter(cut, s, [one], e, first) == Unnamed
            && DiagnosedAfter(cut, s, [two], e, first) == Named(ErrAlreadyWritten)
            && DiagnosedAfter(cut, s, [Fence(e + 1)], e, first) == Named(ErrFenced)
  {
    var e, first := s.row.epoch, s.row.lastSeqno + 2;
    var one: Op := Append(e, first - 1, [payload]);
    var two: Op := Append(e, first - 1, [payload, payload]);
    RunOne(cut, s, one);
    RunOne(cut, s, two);
    RunOne(cut, s, Fence(e + 1));
  }

  lemma {:induction false} RunOne(cut: Cut, s: State, op: Op)
    ensures Run(cut, s, [op]) == Step(cut, s, op)
  {
    assert [op][1..] == [];
  }

  /**
   The diagnosis of a refused fence, whatever runs before the second reading: it names
   ErrFenced exactly when a higher epoch refused it, which nothing undoes. The one
   other refusal is of an epoch the column cannot hold, and that one has no name.
   */
  lemma {:induction false} FenceRefusalUpheld(cut: Cut, s: State, ops: seq<Op>, epoch: nat)
    requires epoch > 0 && s.row.epoch < TWO63 && !Admits(s.row, Fence(epoch))
    ensures var named := DiagnoseFence(Some(Run(cut, s, ops).row), epoch);
            && (s.row.epoch > epoch ==> named == Named(ErrFenced))
            && (s.row.epoch <= epoch ==> named == Unnamed && epoch >= TWO63)
  {
    RunOnlyAdvances(cut, s, ops);
    if epoch >= TWO63 {
      OwnerStaysBelow(cut, s, ops, epoch);
    }
  }
}
