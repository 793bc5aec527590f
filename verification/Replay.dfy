/**
 The retry rule of the package (README.md lines 85-93 and 133-137, log.go:61-68): an
 append without an answer is sent again unchanged until there is one, and
 ErrAlreadyWritten counts as success.

 One client has a range of epochs to itself. It begins at the lowest and may renew at
 a higher one whenever it is between attempts. Every attempt it gives up on, under
 whichever epoch, may still be under way and may land at any later time, any number
 of times over; any other client may fence at any epoch, append under epochs outside
 the range and trim, at any point.
 */
module Replay {
  import opened Words
  import opened Rules
  import opened Codec
  import A = AbstractLog

  /** The epochs handed to this client and to nobody else. */
  datatype Epochs = Epochs(low: nat, top: nat) {
    predicate Has(epoch: nat) {
      low <= epoch <= top
    }
  }

  /** Where the attempt the client is waiting for stands. */
  datatype Stage = Ready | Sent | Landed | Refused | Stopped

  datatype Attempt = Attempt(epoch: nat, first: nat, payloads: seq<Bytes>)

  /** `batch` is empty between batches; `strays` are the attempts given up on; `acked` is what was acknowledged. */
  datatype System = System(log: A.Log, epoch: nat, next: nat, batch: seq<Bytes>, stage: Stage, strays: set<Attempt>,
                           acked: seq<seq<Bytes>>)

  datatype Event =
    | Other(call: A.Call)        // somebody else's call
    | Draw(payloads: seq<Bytes>) // the client draws its next batch
    | Send                       // and sends it, or sends it again
    | Execute                    // the statement runs
    | Diagnose                   // the row is read after a refusal, and the answer returned
    | Reply                      // the answer of an append that landed
    | GiveUp                     // no answer: the attempt failed ambiguously
    | Stray(attempt: Attempt)    // an attempt given up on runs after all
    | Renew(epoch: nat)          // the client fences again, at a higher epoch of its own

  predicate Enabled(mine: Epochs, sys: System, ev: Event) {
    match ev
    case Other(call) => call.Append? ==> !mine.Has(call.epoch)
    case Draw(payloads) => sys.batch == [] && sys.stage == Ready && payloads != []
    case Send => sys.batch != [] && sys.stage == Ready
    case Execute => sys.stage == Sent
    case Diagnose => sys.stage == Refused && sys.epoch > 0 && sys.next >= FIRST_SEQNO
    case Reply => sys.stage == Landed
    case GiveUp => sys.stage == Sent || sys.stage == Landed || sys.stage == Refused
    case Stray(attempt) => attempt in sys.strays
    case Renew(epoch) => (sys.stage == Ready || sys.stage == Stopped) && sys.epoch < epoch <= mine.top
  }

  function Acked(sys: System): System {
    sys.(next := sys.next + |sys.batch|, batch := [], stage := Ready, acked := sys.acked + [sys.batch])
  }

  function InHand(sys: System): Attempt {
    Attempt(sys.epoch, sys.next, sys.batch)
  }

  function CallOf(a: Attempt): A.Call {
    A.Append(a.epoch, a.first, a.payloads)
  }

  function Next(mine: Epochs, sys: System, ev: Event): System
    requires Enabled(mine, sys, ev)
  {
    match ev
    case Other(call) => sys.(log := A.Step(sys.log, call))
    case Draw(payloads) => sys.(batch := payloads)
    case Send => sys.(stage := Sent)
    case Execute =>
      var call := CallOf(InHand(sys));
      sys.(log := A.Step(sys.log, call), stage := if A.Admits(sys.log, call) then Landed else Refused)
    case Diagnose =>
      (match AppendRefusal(sys.epoch, sys.next, sys.log.Found())
       case Some(ErrAlreadyWritten) => Acked(sys)
       case Some(ErrFenced) => sys.(stage := Stopped)
       case _ => sys.(stage := Ready))
    case Reply => Acked(sys)
    case GiveUp =>
      sys.(stage := Ready, strays := if sys.stage == Sent then sys.strays + {InHand(sys)} else sys.strays)
    case Stray(attempt) => sys.(log := A.Step(sys.log, CallOf(attempt)))
    case Renew(epoch) =>
      if A.Admits(sys.log, A.Fence(epoch))
      then sys.(log := A.Step(sys.log, A.Fence(epoch)), epoch := epoch, stage := Ready)
      else sys.(stage := Stopped)
  }

  predicate Possible(mine: Epochs, sys: System, run: seq<Event>)
    decreases |run|
  {
    run == [] || (Enabled(mine, sys, run[0]) && Possible(mine, Next(mine, sys, run[0]), run[1..]))
  }

  function End(mine: Epochs, sys: System, run: seq<Event>): System
    requires Possible(mine, sys, run)
    decreases |run|
  {
    if run == [] then sys else End(mine, Next(mine, sys, run[0]), run[1..])
  }

  /** The client as it starts: it has fenced the log at its lowest epoch and then asked for the next seqno. */
  function Started(mine: Epochs, log: A.Log): System {
    System(log, mine.low, log.NextSeqno(), [], Ready, {}, [])
  }

  function Flat(batches: seq<seq<Bytes>>): seq<Bytes> {
    if batches == [] then [] else Flat(batches[..|batches| - 1]) + batches[|batches| - 1]
  }

  // ---------- what the log looks like to its owner ----------

  /** The batch lies whole at the seqnos from at + 1 on, under one of the client's epochs. */
  predicate Lies(mine: Epochs, entries: seq<Entry>, at: nat, batch: seq<Bytes>) {
    && batch != [] && at + |batch| <= |entries| && mine.Has(entries[at].epoch)
    && forall i :: 0 <= i < |batch| ==> entries[at + i] == Entry(at + i + 1, entries[at].epoch, batch[i])
  }

  /** The log is the base and then these batches, each once, in order and without anything between them. */
  predicate AllLie(mine: Epochs, base: seq<Entry>, batches: seq<seq<Bytes>>, entries: seq<Entry>) {
    if batches == [] then base <= entries else
      var init, last := batches[..|batches| - 1], batches[|batches| - 1];
      AllLie(mine, base, init, entries) && Lies(mine, entries, |base| + |Flat(init)|, last)
  }

  /** From here on there is nothing of the client's, only entries of later owners. */
  predicate LaterOwners(mine: Epochs, entries: seq<Entry>, at: nat) {
    at <= |entries| && forall i :: at <= i < |entries| ==> entries[i].epoch > mine.top
  }

  /** No entry is of a later epoch than the owner's. */
  predicate Owned(log: A.Log) {
    forall i :: 0 <= i < |log.entries| ==> log.entries[i].epoch <= log.owner
  }

  lemma {:induction false} StepKeepsOwned(log: A.Log, call: A.Call)
    requires Owned(log)
    ensures Owned(A.Step(log, call))
  {
  }

  /** The batch in hand is in the log, once, or it is not. */
  predicate HasLanded(mine: Epochs, entries: seq<Entry>, at: nat, batch: seq<Bytes>) {
    Lies(mine, entries, at, batch) && LaterOwners(mine, entries, at + |batch|)
  }

  predicate AtMostOnce(mine: Epochs, entries: seq<Entry>, at: nat, batch: seq<Bytes>) {
    LaterOwners(mine, entries, at) || HasLanded(mine, entries, at, batch)
  }

  ghost predicate Inv(mine: Epochs, base: seq<Entry>, sys: System) {
    && Books(mine, base, sys)
    && LogFits(mine, base, sys.acked, sys.next - 1, sys.batch, sys.log)
    && StageFits(mine, sys.epoch, sys.next - 1, sys.batch, sys.stage, sys.log)
  }

  /** The client's own state. */
  ghost predicate Books(mine: Epochs, base: seq<Entry>, sys: System) {
    && 0 < mine.low <= sys.epoch <= mine.top
    && sys.next == |base| + |Flat(sys.acked)| + 1
    && (forall a :: a in sys.strays ==> Known(sys.epoch, sys.next, sys.batch, a))
  }

  /** What the log holds. */
  ghost predicate LogFits(mine: Epochs, base: seq<Entry>, acked: seq<seq<Bytes>>, at: nat, batch: seq<Bytes>, log: A.Log) {
    Owned(log) && AllLie(mine, base, acked, log.entries) && AtMostOnce(mine, log.entries, at, batch)
  }

  /** What it holds of the attempt under way. */
  ghost predicate StageFits(mine: Epochs, epoch: nat, at: nat, batch: seq<Bytes>, stage: Stage, log: A.Log) {
    && log.owner >= epoch
    && (stage.Sent? || stage.Landed? || stage.Refused? ==> batch != [])
    && (stage == Landed ==> HasLanded(mine, log.entries, at, batch))
    && (stage == Refused ==> log.owner > epoch || HasLanded(mine, log.entries, at, batch))
  }

  /** An attempt the client has made: of a batch it is done with, or of the one in hand, under an epoch it has had. */
  predicate Known(epoch: nat, next: nat, batch: seq<Bytes>, a: Attempt) {
    && a.payloads != [] && a.epoch <= epoch
    && (a.first < next || (a.first == next && a.payloads == batch))
  }

  /** What lies in the log stays where it is. */
  lemma {:induction false} StillLie(mine: Epochs, base: seq<Entry>, batches: seq<seq<Bytes>>, entries: seq<Entry>, more: seq<Entry>)
    requires AllLie(mine, base, batches, entries) && entries <= more
    ensures AllLie(mine, base, batches, more)
    decreases |batches|
  {
    if batches != [] {
      StillLie(mine, base, batches[..|batches| - 1], entries, more);
    }
  }

  /** While the owner is an epoch of the client's nothing comes after what it wrote. */
  lemma {:induction false} OwnerSeesTheEnd(mine: Epochs, log: A.Log, at: nat)
    requires Owned(log) && LaterOwners(mine, log.entries, at)
    ensures |log.entries| == at || log.owner > mine.top
  {
    if at < |log.entries| {
      assert log.entries[at].epoch > mine.top;
    }
  }

  /** Where the log ends, while the client's epoch owns it. */
  lemma {:induction false} EndIsKnown(mine: Epochs, log: A.Log, at: nat, batch: seq<Bytes>)
    requires Owned(log) && log.owner <= mine.top && AtMostOnce(mine, log.entries, at, batch)
    ensures |log.entries| == at || (HasLanded(mine, log.entries, at, batch) && |log.entries| == at + |batch|)
  {
    if HasLanded(mine, log.entries, at, batch) {
      OwnerSeesTheEnd(mine, log, at + |batch|);
    } else {
      OwnerSeesTheEnd(mine, log, at);
    }
  }

  /** A batch appended where the log ends lies there, once. */
  lemma {:induction false} Lands(mine: Epochs, log: A.Log, epoch: nat, batch: seq<Bytes>)
    requires batch != [] && mine.Has(epoch) && A.Admits(log, A.Append(epoch, |log.entries| + 1, batch))
    ensures HasLanded(mine, A.Step(log, A.Append(epoch, |log.entries| + 1, batch)).entries, |log.entries|, batch)
  {
  }

  /**
   An attempt of the client's, made under this epoch of its or an earlier one: it lands
   once, where the log ends just below it, and never again.
   */
  lemma {:induction false} AttemptLandsOnce(mine: Epochs, log: A.Log, epoch: nat, at: nat, batch: seq<Bytes>, a: Attempt)
    requires mine.Has(epoch) && Owned(log) && log.owner >= epoch > 0
    requires AtMostOnce(mine, log.entries, at, batch) && Known(epoch, at + 1, batch, a)
    ensures A.Admits(log, CallOf(a)) ==>
              a == Attempt(epoch, at + 1, batch) && HasLanded(mine, A.Step(log, CallOf(a)).entries, at, batch)
    ensures !A.Admits(log, CallOf(a)) && a == Attempt(epoch, at + 1, batch) ==>
              log.owner > epoch || HasLanded(mine, log.entries, at, batch)
  {
    if log.owner == epoch {
      EndIsKnown(mine, log, at, batch);
      if A.Admits(log, CallOf(a)) {
        Lands(mine, log, epoch, batch);
      }
    }
  }

  // ---------- every event keeps it ----------

  /** Nothing is taken back between two logs, and the batch in hand is there as before or has landed. */
  ghost predicate Grows(mine: Epochs, log: A.Log, more: A.Log, at: nat, batch: seq<Bytes>) {
    && Owned(more) && log.owner <= more.owner && log.entries <= more.entries
    && (AtMostOnce(mine, log.entries, at, batch) ==> AtMostOnce(mine, more.entries, at, batch))
    && (HasLanded(mine, log.entries, at, batch) ==> HasLanded(mine, more.entries, at, batch))
  }

  lemma {:induction false} StillLies(mine: Epochs, entries: seq<Entry>, more: seq<Entry>, at: nat, batch: seq<Bytes>)
    requires Lies(mine, entries, at, batch) && entries <= more
    ensures Lies(mine, more, at, batch)
  {
  }

  lemma {:induction false} OthersComeAfter(mine: Epochs, log: A.Log, call: A.Call, at: nat)
    requires mine.low <= log.owner && (call.Append? ==> !mine.Has(call.epoch))
    ensures log.owner <= A.Step(log, call).owner && log.entries <= A.Step(log, call).entries
    ensures LaterOwners(mine, log.entries, at) ==> LaterOwners(mine, A.Step(log, call).entries, at)
  {
  }

  /** A call of an epoch outside the client's leaves what it wrote where it is. */
  lemma {:induction false} OtherGrows(mine: Epochs, log: A.Log, call: A.Call, at: nat, batch: seq<Bytes>)
    requires Owned(log) && mine.low <= log.owner && (call.Append? ==> !mine.Has(call.epoch))
    ensures Grows(mine, log, A.Step(log, call), at, batch)
  {
    StepKeepsOwned(log, call);
    OthersComeAfter(mine, log, call, at);
    OthersComeAfter(mine, log, call, at + |batch|);
    if Lies(mine, log.entries, at, batch) {
      StillLies(mine, log.entries, A.Step(log, call).entries, at, batch);
    }
  }

  lemma {:induction false} AttemptGrows(mine: Epochs, log: A.Log, epoch: nat, at: nat, batch: seq<Bytes>, a: Attempt)
    requires mine.Has(epoch) && Owned(log) && log.owner >= epoch > 0
    requires AtMostOnce(mine, log.entries, at, batch) && Known(epoch, at + 1, batch, a)
    ensures Grows(mine, log, A.Step(log, CallOf(a)), at, batch)
  {
    StepKeepsOwned(log, CallOf(a));
    AttemptLandsOnce(mine, log, epoch, at, batch, a);
  }

  lemma {:induction false} GrowingKeepsInv(mine: Epochs, base: seq<Entry>, sys: System, more: A.Log)
    requires Inv(mine, base, sys) && Grows(mine, sys.log, more, sys.next - 1, sys.batch)
    ensures Inv(mine, base, sys.(log := more))
  {
    StillLie(mine, base, sys.acked, sys.log.entries, more.entries);
  }

  lemma {:induction false} OtherKeepsInv(mine: Epochs, base: seq<Entry>, sys: System, call: A.Call)
    requires Inv(mine, base, sys) && (call.Append? ==> !mine.Has(call.epoch))
    ensures Inv(mine, base, sys.(log := A.Step(sys.log, call)))
  {
    var more := A.Step(sys.log, call);
    OtherGrows(mine, sys.log, call, sys.next - 1, sys.batch);
    GrowingKeepsInv(mine, base, sys, more);
  }

  lemma {:induction false} StrayKeepsInv(mine: Epochs, base: seq<Entry>, sys: System, a: Attempt)
    requires Inv(mine, base, sys) && Known(sys.epoch, sys.next, sys.batch, a)
    ensures Inv(mine, base, sys.(log := A.Step(sys.log, CallOf(a))))
  {
    var more := A.Step(sys.log, CallOf(a));
    AttemptGrows(mine, sys.log, sys.epoch, sys.next - 1, sys.batch, a);
    GrowingKeepsInv(mine, base, sys, more);
  }

  lemma {:induction false} StageKeepsInv(mine: Epochs, base: seq<Entry>, sys: System, stage: Stage)
    requires Inv(mine, base, sys) && StageFits(mine, sys.epoch, sys.next - 1, sys.batch, stage, sys.log)
    ensures Inv(mine, base, sys.(stage := stage))
  {
  }

  lemma {:induction false} ExecuteKeepsInv(mine: Epochs, base: seq<Entry>, sys: System)
    requires Inv(mine, base, sys) && sys.stage == Sent
    ensures Inv(mine, base, Next(mine, sys, Execute))
  {
    var run := sys.(log := A.Step(sys.log, CallOf(InHand(sys))));
    StrayKeepsInv(mine, base, sys, InHand(sys));
    AttemptLandsOnce(mine, sys.log, sys.epoch, sys.next - 1, sys.batch, InHand(sys));
    StageKeepsInv(mine, base, run, Next(mine, sys, Execute).stage);
  }

  lemma {:induction false} FlatMore(batches: seq<seq<Bytes>>, batch: seq<Bytes>)
    ensures Flat(batches + [batch]) == Flat(batches) + batch
  {
    assert (batches + [batch])[..|batches|] == batches;
  }

  lemma {:induction false} AckKeepsInv(mine: Epochs, base: seq<Entry>, sys: System)
    requires Inv(mine, base, sys) && HasLanded(mine, sys.log.entries, sys.next - 1, sys.batch)
    ensures Inv(mine, base, Acked(sys))
  {
    FlatMore(sys.acked, sys.batch);
    assert (sys.acked + [sys.batch])[..|sys.acked|] == sys.acked;
  }

  /** A refusal is only ever the ack or the loss of the log: the diagnosis is never a gap and never nameless. */
  lemma {:induction false} RefusalIsAckOrLoss(mine: Epochs, base: seq<Entry>, sys: System)
    requires Inv(mine, base, sys) && sys.stage == Refused
    ensures var d := AppendRefusal(sys.epoch, sys.next, sys.log.Found());
            && (d == Some(ErrAlreadyWritten) || d == Some(ErrFenced))
            && (d == Some(ErrAlreadyWritten) ==>
                  && HasLanded(mine, sys.log.entries, sys.next - 1, sys.batch)
                  && |sys.log.entries| == sys.next + |sys.batch| - 1)
  {
    if sys.log.owner == sys.epoch {
      OwnerSeesTheEnd(mine, sys.log, sys.next - 1 + |sys.batch|);
    }
  }

  lemma {:induction false} DiagnoseKeepsInv(mine: Epochs, base: seq<Entry>, sys: System)
    requires Inv(mine, base, sys) && Enabled(mine, sys, Diagnose)
    ensures Inv(mine, base, Next(mine, sys, Diagnose))
  {
    RefusalIsAckOrLoss(mine, base, sys);
    if AppendRefusal(sys.epoch, sys.next, sys.log.Found()) == Some(ErrAlreadyWritten) {
      AckKeepsInv(mine, base, sys);
      assert Next(mine, sys, Diagnose) == Acked(sys);
    } else {
      StageKeepsInv(mine, base, sys, Stopped);
      assert Next(mine, sys, Diagnose) == sys.(stage := Stopped);
    }
  }

  lemma {:induction false} EpochKeepsInv(mine: Epochs, base: seq<Entry>, sys: System, epoch: nat)
    requires Inv(mine, base, sys) && sys.epoch < epoch <= mine.top && sys.log.owner == epoch
    ensures Inv(mine, base, sys.(epoch := epoch, stage := Ready))
  {
  }

  lemma {:induction false} RenewKeepsInv(mine: Epochs, base: seq<Entry>, sys: System, epoch: nat)
    requires Inv(mine, base, sys) && Enabled(mine, sys, Renew(epoch))
    ensures Inv(mine, base, Next(mine, sys, Renew(epoch)))
  {
    if A.Admits(sys.log, A.Fence(epoch)) {
      OtherKeepsInv(mine, base, sys, A.Fence(epoch));
      EpochKeepsInv(mine, base, sys.(log := A.Step(sys.log, A.Fence(epoch))), epoch);
    } else {
      StageKeepsInv(mine, base, sys, Stopped);
    }
  }

  /** Drawing, sending and giving up leave the log alone. */
  lemma {:induction false} PlainKeepsInv(mine: Epochs, base: seq<Entry>, sys: System, ev: Event)
    requires Inv(mine, base, sys) && Enabled(mine, sys, ev) && (ev.Draw? || ev.Send? || ev.GiveUp?)
    ensures Inv(mine, base, Next(mine, sys, ev))
  {
  }

  lemma {:induction false} StepKeepsInv(mine: Epochs, base: seq<Entry>, sys: System, ev: Event)
    requires Inv(mine, base, sys) && Enabled(mine, sys, ev)
    ensures Inv(mine, base, Next(mine, sys, ev))
  {
    match ev
    case Other(call) => OtherKeepsInv(mine, base, sys, call);
    case Execute => ExecuteKeepsInv(mine, base, sys);
    case Diagnose => DiagnoseKeepsInv(mine, base, sys);
    case Reply => AckKeepsInv(mine, base, sys);
    case Stray(attempt) => StrayKeepsInv(mine, base, sys, attempt);
    case Renew(epoch) => RenewKeepsInv(mine, base, sys, epoch);
    case _ => PlainKeepsInv(mine, base, sys, ev);
  }

  lemma {:induction false} RunKeepsInv(mine: Epochs, base: seq<Entry>, sys: System, run: seq<Event>)
    requires Inv(mine, base, sys) && Possible(mine, sys, run)
    ensures Inv(mine, base, End(mine, sys, run))
    decreases |run|
  {
    if run != [] {
      StepKeepsInv(mine, base, sys, run[0]);
      RunKeepsInv(mine, base, Next(mine, sys, run[0]), run[1..]);
    }
  }

  /** The log when the client asks for the next seqno: it has fenced, and other calls have run since. */
  function Asked(a: A.Log, mine: Epochs, before: seq<A.Call>): A.Log {
    A.Run(A.Step(a, A.Fence(mine.low)), before)
  }

  lemma {:induction false} ReachableInv(a: A.Log, mine: Epochs, before: seq<A.Call>, run: seq<Event>)
    requires a.Valid() && A.Admits(a, A.Fence(mine.low)) && mine.low <= mine.top
    requires Possible(mine, Started(mine, Asked(a, mine, before)), run)
    ensures Inv(mine, Asked(a, mine, before).entries, End(mine, Started(mine, Asked(a, mine, before)), run))
  {
    A.StepKeepsValid(a, A.Fence(mine.low));
    A.RunKeepsValid(A.Step(a, A.Fence(mine.low)), before);
    RunKeepsInv(mine, Asked(a, mine, before).entries, Started(mine, Asked(a, mine, before)), run);
  }

  /** Batches that lie in the log are its payloads after the base. */
  lemma {:induction false} LyingPayloads(mine: Epochs, base: seq<Entry>, batches: seq<seq<Bytes>>, entries: seq<Entry>, i: nat)
    requires AllLie(mine, base, batches, entries) && i < |Flat(batches)|
    ensures |base| + i < |entries| && entries[|base| + i].payload == Flat(batches)[i] && mine.Has(entries[|base| + i].epoch)
    decreases |batches|
  {
    var init, last := batches[..|batches| - 1], batches[|batches| - 1];
    if i < |Flat(init)| {
      LyingPayloads(mine, base, init, entries, i);
    } else {
      assert entries[|base| + |Flat(init)| + (i - |Flat(init)|)].payload == last[i - |Flat(init)|];
    }
  }

  /**
   Exactly once. The client fences, other calls run, it asks for the next seqno, and
   from there on any run of replays, renewals, late landings and other clients' calls
   leaves the log as it was when it asked, followed by the acknowledged batches, each
   once, whole, in order and under one of the client's epochs, followed by at most one
   copy of the batch in hand, followed only by entries of higher epochs.
   */
  lemma {:induction false} ExactlyOnce(a: A.Log, mine: Epochs, before: seq<A.Call>, run: seq<Event>)
    requires a.Valid() && A.Admits(a, A.Fence(mine.low)) && mine.low <= mine.top
    requires Possible(mine, Started(mine, Asked(a, mine, before)), run)
    ensures var base := Asked(a, mine, before).entries;
            var sys := End(mine, Started(mine, Asked(a, mine, before)), run);
            var acked := Flat(sys.acked);
            && AllLie(mine, base, sys.acked, sys.log.entries)
            && AtMostOnce(mine, sys.log.entries, |base| + |acked|, sys.batch)
            && (forall i :: 0 <= i < |acked| ==>
                  |base| + i < |sys.log.entries| && sys.log.entries[|base| + i].payload == acked[i])
  {
    ReachableInv(a, mine, before, run);
    var base := Asked(a, mine, before).entries;
    var sys := End(mine, Started(mine, Asked(a, mine, before)), run);
    forall i | 0 <= i < |Flat(sys.acked)|
      ensures |base| + i < |sys.log.entries| && sys.log.entries[|base| + i].payload == Flat(sys.acked)[i]
    {
      LyingPayloads(mine, base, sys.acked, sys.log.entries, i);
    }
  }

  /**
   The ack. In every reachable state a refused attempt is diagnosed as already
   written or as fenced off and as nothing else, and already written, under the epoch
   the client holds now, means that the batch lies at its own seqnos, under one of the
   client's epochs, at the very end of the log.
   */
  lemma {:induction false} AlreadyWrittenIsTheAck(a: A.Log, mine: Epochs, before: seq<A.Call>, run: seq<Event>)
    requires a.Valid() && A.Admits(a, A.Fence(mine.low)) && mine.low <= mine.top
    requires Possible(mine, Started(mine, Asked(a, mine, before)), run)
    requires End(mine, Started(mine, Asked(a, mine, before)), run).stage == Refused
    ensures var sys := End(mine, Started(mine, Asked(a, mine, before)), run);
            sys.next >= 1 && sys.epoch > 0 &&
            var d := AppendRefusal(sys.epoch, sys.next, sys.log.Found());
            && (d == Some(ErrAlreadyWritten) || d == Some(ErrFenced))
            && (d == Some(ErrAlreadyWritten) ==>
                  && |sys.log.entries| == sys.next + |sys.batch| - 1
                  && Lies(mine, sys.log.entries, sys.next - 1, sys.batch))
  {
    ReachableInv(a, mine, before, run);
    RefusalIsAckOrLoss(mine, Asked(a, mine, before).entries, End(mine, Started(mine, Asked(a, mine, before)), run));
  }

  // ---------- and the client takes it ----------

  /** The client is done with the batch it had in hand: acknowledged, once, and the next one goes above it. */
  ghost predicate DoneWith(was: System, now: System) {
    && now.acked == was.acked + [was.batch] && now.next == was.next + |was.batch|
    && now.batch == [] && now.stage == Ready
  }

  /**
   The client acts on what it is told, in every reachable state. An append that landed
   is acknowledged by its reply, and so is one refused while the log is still the
   client's; where the log has gone to another epoch the client stops, with its batch.
   */
  lemma {:induction false} AnswersAreTaken(a: A.Log, mine: Epochs, before: seq<A.Call>, run: seq<Event>)
    requires a.Valid() && A.Admits(a, A.Fence(mine.low)) && mine.low <= mine.top
    requires Possible(mine, Started(mine, Asked(a, mine, before)), run)
    ensures var sys := End(mine, Started(mine, Asked(a, mine, before)), run);
            && (sys.stage == Landed ==> Enabled(mine, sys, Reply) && DoneWith(sys, Next(mine, sys, Reply)))
            && (sys.stage == Refused ==>
                  && Enabled(mine, sys, Diagnose)
                  && (sys.log.owner == sys.epoch ==> DoneWith(sys, Next(mine, sys, Diagnose)))
                  && (sys.log.owner != sys.epoch ==> Next(mine, sys, Diagnose) == sys.(stage := Stopped)))
  {
    ReachableInv(a, mine, before, run);
    var sys := End(mine, Started(mine, Asked(a, mine, before)), run);
    if sys.stage == Refused {
      RefusalIsAckOrLoss(mine, Asked(a, mine, before).entries, sys);
    }
  }

  lemma {:induction false} OneMore(mine: Epochs, sys: System, ev: Event, rest: seq<Event>)
    requires Enabled(mine, sys, ev) && Possible(mine, Next(mine, sys, ev), rest)
    ensures Possible(mine, sys, [ev] + rest) && End(mine, sys, [ev] + rest) == End(mine, Next(mine, sys, ev), rest)
  {
    assert ([ev] + rest)[1..] == rest;
  }

  /** One attempt and its answer are enough while the log is the client's, whatever became of earlier attempts. */
  lemma {:induction false} OneAttemptIsEnough(mine: Epochs, base: seq<Entry>, sys: System) returns (round: seq<Event>)
    requires Inv(mine, base, sys) && sys.stage == Ready && sys.batch != [] && sys.log.owner == sys.epoch
    ensures Possible(mine, sys, round) && DoneWith(sys, End(mine, sys, round))
    ensures round == [Send] + ([Execute] + ([Reply] + [])) || round == [Send] + ([Execute] + ([Diagnose] + []))
  {
    var s1 := Next(mine, sys, Send);
    var s2 := Next(mine, s1, Execute);
    StageKeepsInv(mine, base, sys, Sent);
    ExecuteKeepsInv(mine, base, s1);
    var answer := if s2.stage == Landed then Reply else Diagnose;
    if s2.stage == Refused {
      RefusalIsAckOrLoss(mine, base, s2);
    }
    OneMore(mine, s2, answer, []);
    OneMore(mine, s1, Execute, [answer] + []);
    OneMore(mine, sys, Send, [Execute] + ([answer] + []));
    round := [Send] + ([Execute] + ([answer] + []));
  }

  /**
   Progress. From every reachable state in which the client has a batch in hand and is
   not waiting for an answer, it is three events from having it acknowledged while it
   owns the log, and four where it can renew: at an epoch of its own above the one it
   has and not below the owner.
   */
  lemma {:induction false} BatchCanBeAcked(a: A.Log, mine: Epochs, before: seq<A.Call>, run: seq<Event>, renewed: nat)
    returns (more: seq<Event>)
    requires a.Valid() && A.Admits(a, A.Fence(mine.low)) && mine.low <= mine.top
    requires Possible(mine, Started(mine, Asked(a, mine, before)), run)
    requires var sys := End(mine, Started(mine, Asked(a, mine, before)), run);
             && sys.batch != []
             && ((sys.stage == Ready && sys.log.owner == sys.epoch)
                 || ((sys.stage == Ready || sys.stage == Stopped)
                     && sys.epoch < renewed <= mine.top && sys.log.owner <= renewed < TWO63))
    ensures var sys := End(mine, Started(mine, Asked(a, mine, before)), run);
            Possible(mine, sys, more) && DoneWith(sys, End(mine, sys, more)) && 3 <= |more| <= 4
  {
    var base := Asked(a, mine, before).entries;
    var sys := End(mine, Started(mine, Asked(a, mine, before)), run);
    ReachableInv(a, mine, before, run);
    if sys.stage == Ready && sys.log.owner == sys.epoch {
      more := OneAttemptIsEnough(mine, base, sys);
    } else {
      RenewKeepsInv(mine, base, sys, renewed);
      var fenced := Next(mine, sys, Renew(renewed));
      more := OneAttemptIsEnough(mine, base, fenced);
      OneMore(mine, sys, Renew(renewed), more);
      more := [Renew(renewed)] + more;
    }
  }

  /** And so is a batch yet to be drawn. */
  lemma {:induction false} NextBatchCanBeAcked(a: A.Log, mine: Epochs, before: seq<A.Call>, run: seq<Event>, payloads: seq<Bytes>)
    returns (more: seq<Event>)
    requires a.Valid() && A.Admits(a, A.Fence(mine.low)) && mine.low <= mine.top && payloads != []
    requires Possible(mine, Started(mine, Asked(a, mine, before)), run)
    requires var sys := End(mine, Started(mine, Asked(a, mine, before)), run);
             sys.batch == [] && sys.stage == Ready && sys.log.owner == sys.epoch
    ensures var sys := End(mine, Started(mine, Asked(a, mine, before)), run);
            Possible(mine, sys, more) && DoneWith(sys.(batch := payloads), End(mine, sys, more)) && |more| == 4
  {
    var base := Asked(a, mine, before).entries;
    var sys := End(mine, Started(mine, Asked(a, mine, before)), run);
    ReachableInv(a, mine, before, run);
    PlainKeepsInv(mine, base, sys, Draw(payloads));
    more := OneAttemptIsEnough(mine, base, sys.(batch := payloads));
    OneMore(mine, sys, Draw(payloads), more);
    more := [Draw(payloads)] + more;
  }

  /**
   The replay of an append that landed without the client hearing of it, from every
   reachable state: sent again unchanged it is refused, the refusal acknowledges it, and
   the log stays as it is.
   */
  lemma {:induction false} LostReplyIsReplayed(a: A.Log, mine: Epochs, before: seq<A.Call>, run: seq<Event>)
    requires a.Valid() && A.Admits(a, A.Fence(mine.low)) && mine.low <= mine.top
    requires Possible(mine, Started(mine, Asked(a, mine, before)), run)
    requires var sys := End(mine, Started(mine, Asked(a, mine, before)), run);
             sys.stage == Landed && sys.log.owner == sys.epoch
    ensures var sys := End(mine, Started(mine, Asked(a, mine, before)), run);
            var replay := [GiveUp] + ([Send] + ([Execute] + ([Diagnose] + [])));
            && Possible(mine, sys, replay) && DoneWith(sys, End(mine, sys, replay))
            && End(mine, sys, replay).log == sys.log
  {
    ReachableInv(a, mine, before, run);
    Replayed(mine, Asked(a, mine, before).entries, End(mine, Started(mine, Asked(a, mine, before)), run));
  }

  lemma {:induction false} Replayed(mine: Epochs, base: seq<Entry>, sys: System)
    requires Inv(mine, base, sys) && sys.stage == Landed && sys.log.owner == sys.epoch
    ensures var replay := [GiveUp] + ([Send] + ([Execute] + ([Diagnose] + [])));
            && Possible(mine, sys, replay) && DoneWith(sys, End(mine, sys, replay))
            && End(mine, sys, replay).log == sys.log
  {
    var s1, s2, s3 := sys.(stage := Ready), sys.(stage := Sent), sys.(stage := Refused);
    assert Next(mine, sys, GiveUp) == s1 && Next(mine, s1, Send) == s2;
    assert Next(mine, s2, Execute) == s3;
    StageKeepsInv(mine, base, sys, Refused);
    RefusalIsAckOrLoss(mine, base, s3);
    OneMore(mine, s3, Diagnose, []);
    OneMore(mine, s2, Execute, [Diagnose] + []);
    OneMore(mine, s1, Send, [Execute] + ([Diagnose] + []));
    OneMore(mine, sys, GiveUp, [Send] + ([Execute] + ([Diagnose] + [])));
  }

  /** An attempt given up on may land later, at its own seqnos: that is the ambiguity the rule is for. */
  lemma {:induction false} GivenUpMayLand(a: A.Log, mine: Epochs, before: seq<A.Call>, run: seq<Event>)
    requires a.Valid() && A.Admits(a, A.Fence(mine.low)) && mine.low <= mine.top
    requires Possible(mine, Started(mine, Asked(a, mine, before)), run)
    requires var sys := End(mine, Started(mine, Asked(a, mine, before)), run);
             && sys.stage == Ready && sys.batch != []
             && sys.log.owner == sys.epoch && |sys.log.entries| == sys.next - 1
    ensures var sys := End(mine, Started(mine, Asked(a, mine, before)), run);
            var late := [Send] + ([GiveUp] + ([Stray(InHand(sys))] + []));
            && Possible(mine, sys, late)
            && sys.next >= 1 && HasLanded(mine, End(mine, sys, late).log.entries, sys.next - 1, sys.batch)
            && End(mine, sys, late).acked == sys.acked
  {
    ReachableInv(a, mine, before, run);
    LateLanding(mine, Asked(a, mine, before).entries, End(mine, Started(mine, Asked(a, mine, before)), run));
  }

  lemma {:induction false} LateLanding(mine: Epochs, base: seq<Entry>, sys: System)
    requires Inv(mine, base, sys) && sys.stage == Ready && sys.batch != []
    requires sys.log.owner == sys.epoch && |sys.log.entries| == sys.next - 1
    ensures var late := [Send] + ([GiveUp] + ([Stray(InHand(sys))] + []));
            && Possible(mine, sys, late)
            && HasLanded(mine, End(mine, sys, late).log.entries, sys.next - 1, sys.batch)
            && End(mine, sys, late).acked == sys.acked
  {
    var s1 := Next(mine, sys, Send);
    var s2 := Next(mine, s1, GiveUp);
    Lands(mine, sys.log, sys.epoch, sys.batch);
    OneMore(mine, s2, Stray(InHand(sys)), []);
    OneMore(mine, s1, GiveUp, [Stray(InHand(sys))] + []);
    OneMore(mine, sys, Send, [GiveUp] + ([Stray(InHand(sys))] + []));
  }

  // ---------- the epochs must be the client's own ----------

  /** The appends of epoch `e` among the calls are attempts of one batch at one seqno. */
  predicate OnlyAttempts(calls: seq<A.Call>, e: nat, first: nat, batch: seq<Bytes>) {
    forall i :: 0 <= i < |calls| ==> calls[i].Append? && calls[i].epoch == e ==> calls[i] == A.Append(e, first, batch)
  }

  /** Nothing appended at `first`, or the batch under `e`, or something under another epoch. */
  predicate Decided(asked: A.Log, log: A.Log, e: nat, batch: seq<Bytes>) {
    var first := asked.NextSeqno();
    && asked.entries <= log.entries && batch != []
    && (|log.entries| >= first ==>
          (log.entries[first - 1].epoch == e <==> asked.entries + BatchEntries(e, first, batch) <= log.entries))
  }

  lemma {:induction false} CallDecides(asked: A.Log, log: A.Log, call: A.Call, e: nat, batch: seq<Bytes>)
    requires Decided(asked, log, e, batch)
    requires call.Append? && call.epoch == e ==> call == A.Append(e, asked.NextSeqno(), batch)
    ensures Decided(asked, A.Step(log, call), e, batch)
  {
    var first, t := asked.NextSeqno(), A.Step(log, call);
    if |log.entries| < first {
      assert log.entries == asked.entries;
    } else if log.entries[first - 1].epoch == e {
      assert asked.entries + BatchEntries(e, first, batch) <= t.entries;
    } else {
      assert t.entries[first - 1].epoch != e;
      assert (asked.entries + BatchEntries(e, first, batch))[first - 1].epoch == e;
    }
  }

  lemma {:induction false} CallsDecide(asked: A.Log, log: A.Log, calls: seq<A.Call>, e: nat, batch: seq<Bytes>)
    requires Decided(asked, log, e, batch) && OnlyAttempts(calls, e, asked.NextSeqno(), batch)
    ensures Decided(asked, A.Run(log, calls), e, batch)
    decreases |calls|
  {
    if calls != [] {
      CallDecides(asked, log, calls[0], e, batch);
      CallsDecide(asked, A.Step(log, calls[0]), calls[1..], e, batch);
    }
  }

  /**
   A client that lost its log in between. It attempts a batch under `e`, any other
   client does anything, and it fences again at `renewed`. Told that the batch is
   already written it may take that for the ack exactly when the entry at the batch's
   first seqno carries its old epoch, which a read of the log shows.
   */
  lemma {:induction false} RenewedAckIff(asked: A.Log, e: nat, batch: seq<Bytes>, calls: seq<A.Call>, renewed: nat)
    requires batch != [] && OnlyAttempts(calls, e, asked.NextSeqno(), batch)
    requires renewed > 0 && A.Admits(A.Run(asked, calls), A.Fence(renewed))
    requires var log := A.Step(A.Run(asked, calls), A.Fence(renewed));
             AppendRefusal(renewed, asked.NextSeqno(), log.Found()) == Some(ErrAlreadyWritten)
    ensures var first, log := asked.NextSeqno(), A.Step(A.Run(asked, calls), A.Fence(renewed));
            && |log.entries| >= first
            && (log.entries[first - 1].epoch == e <==> asked.entries + BatchEntries(e, first, batch) <= log.entries)
  {
    CallsDecide(asked, asked, calls, e, batch);
  }

  /** And it may not always: an owner in between leaves an ErrAlreadyWritten that acknowledges nothing of the client's. */
  lemma {:induction false} LostInBetween(asked: A.Log, between: nat, renewed: nat, batch: seq<Bytes>, theirs: seq<Bytes>)
    requires 0 < asked.owner < between < renewed < TWO63 && batch != [] && theirs != []
    ensures var first := asked.NextSeqno();
            var taken := A.Step(A.Step(asked, A.Fence(between)), A.Append(between, first, theirs));
            var log := A.Step(taken, A.Fence(renewed));
            && AppendRefusal(renewed, first, log.Found()) == Some(ErrAlreadyWritten)
            && !(asked.entries + BatchEntries(asked.owner, first, batch) <= log.entries)
  {
    var first := asked.NextSeqno();
    assert (asked.entries + BatchEntries(between, first, theirs))[first - 1].epoch == between;
    assert (asked.entries + BatchEntries(asked.owner, first, batch))[first - 1].epoch == asked.owner;
  }
}
