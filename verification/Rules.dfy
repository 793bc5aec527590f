/**
 The rules that are functions of values (refuse.go): argument checks, and the naming
 of refusals.
 */
module Rules {
  import opened Words

  datatype Option<+T> = None | Some(value: T)

  const FIRST_SEQNO: nat := 1

  /** The refusals a caller of an append or a fence is expected to handle. */
  datatype Refusal = ErrFenced | ErrAlreadyWritten | ErrGap

  /** The two columns an append is decided by; owner 0 is a log nobody has fenced. */
  datatype AppendState = AppendState(owner: nat, written: nat)

  datatype Checked = Admitted(last: nat) | ErrZeroEpoch | ErrBelowFirst | ErrNoPayloads

  /** The batch's last seqno, in wrapping arithmetic, or the argument at fault. */
  function CheckAppend(epoch: nat, first: nat, payloads: nat): Checked {
    if epoch == 0 then ErrZeroEpoch
    else if first < FIRST_SEQNO then ErrBelowFirst
    else if payloads == 0 then ErrNoPayloads
    else Admitted(Sub64(Add64(first, payloads), 1))
  }

  function FenceRefusal(held: nat, epoch: nat): Option<Refusal> {
    if held > epoch then Some(ErrFenced) else None
  }

  /**
   The diagnosis decides the same question as the statement: it is nil exactly
   where the UPDATE matches, and where several refusals apply it names the one
   that ranks first.
   */
  function AppendRefusal(epoch: nat, first: nat, found: AppendState): (r: Option<Refusal>)
    requires epoch > 0 && first >= FIRST_SEQNO
    ensures r == None <==> UpdateMatches(epoch, first, found)
    ensures r == Some(ErrFenced) <==> found.owner != epoch
    ensures r == Some(ErrAlreadyWritten) <==> found.owner == epoch && first <= found.written
    ensures r == Some(ErrGap) <==> found.owner == epoch && found.written + 1 < first
  {
    if found.owner == 0 then Some(ErrFenced)
    else if found.owner != epoch then Some(ErrFenced)
    else if found.written >= first then Some(ErrAlreadyWritten)
    else if found.written < first - 1 then Some(ErrGap)
    else None
  }

  predicate CheckTrim(upTo: nat) {
    upTo >= FIRST_SEQNO
  }

  /** How far a trim asks the watermark to go; what the column cannot hold is cast below zero and asks for nothing. */
  function TrimReach(upTo: nat): nat {
    if upTo < TWO63 then upTo else 0
  }

  /** The WHERE clause of the fence's UPDATE; an epoch the column cannot hold is cast below zero and matches no row. */
  predicate FenceMatches(held: nat, epoch: nat) {
    held <= epoch < TWO63
  }

  /** The WHERE clause of the append's UPDATE. */
  predicate UpdateMatches(epoch: nat, first: nat, found: AppendState)
    requires first >= FIRST_SEQNO
  {
    found.owner == epoch && found.written == first - 1
  }
}
