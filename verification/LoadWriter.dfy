/**
 The load generator's writer of one log (cmd/pgnotch-load/writer.go). It keeps its
 own position, as any owner does, but it is not the client of module Replay: told
 that a batch is already written it asks where the log ends and sends the batch
 again from there.
 */
module LoadWriter {
  import opened Words
  import opened Rules
  import opened Codec
  import A = AbstractLog
  import R = Replay

  datatype Attempt = Attempt(first: nat, payloads: seq<Bytes>)

  /** What one call to Append came to, for the writer. */
  datatype Outcome = Nil | Fenced | AlreadyWritten | Gap | Failed

  /** The position after an append: `located` is what NextSeqno answered, if it was asked and did answer. */
  function NextAfter(next: nat, outcome: Outcome, located: Option<nat>, len: nat): nat {
    match outcome
    case Nil => next + len
    case AlreadyWritten => if located.Some? then located.value else next
    case Gap => if located.Some? then located.value else next
    case _ => next
  }

  /** How far the writer would trim now: one stride or more past the last trim, never into what it retains. */
  function TrimTarget(next: nat, trimmed: nat, retain: nat, stride: nat): (upTo: Option<nat>)
    requires next >= 1
    ensures upTo.Some? <==> 0 < retain < next - 1 && trimmed + stride + retain <= next - 1
    ensures upTo.Some? ==> upTo.value + retain == next - 1 && upTo.value >= 1
  {
    if retain == 0 || next - 1 <= retain then None
    else if next - 1 - retain < trimmed + stride then None
    else Some(next - 1 - retain)
  }

  // ---------- the loop ----------

  /** What one slot's append came to, and what the read of a resync answered. */
  datatype Answer = Answer(outcome: Outcome, located: Option<nat>) {
    predicate Sane() {
      located.Some? ==> located.value >= FIRST_SEQNO
    }
  }

  /** Where the next batch goes, the batch, and the batches still to be drawn. */
  datatype Hand = Hand(first: nat, batch: seq<Bytes>, draws: seq<seq<Bytes>>)

  /** What the writer has in hand after an answer: it goes on to a new batch after nil and keeps its batch otherwise. */
  function Steer(hand: Hand, answer: Answer): Hand {
    var next := NextAfter(hand.first, answer.outcome, answer.located, |hand.batch|);
    if answer.outcome != Nil then hand.(first := next)
    else if hand.draws == [] then Hand(next, [], [])
    else Hand(next, hand.draws[0], hand.draws[1..])
  }

  function Steered(hand: Hand, answers: seq<Answer>): Hand {
    if answers == [] then hand else Steer(Steered(hand, answers[..|answers| - 1]), answers[|answers| - 1])
  }

  /** What the k-th slot sends. */
  function AttemptAt(start: Hand, answers: seq<Answer>, k: nat): Attempt
    requires k <= |answers|
  {
    var hand := Steered(start, answers[..k]);
    Attempt(hand.first, hand.batch)
  }

  /** Every slot so far has sent what was in hand. */
  ghost predicate SentInHand(start: Hand, answers: seq<Answer>, sent: seq<Attempt>) {
    |sent| <= |answers| && forall i :: 0 <= i < |sent| ==> sent[i] == AttemptAt(start, answers, i)
  }

  lemma {:induction false} OneMoreSent(start: Hand, answers: seq<Answer>, sent: seq<Attempt>, hand: Hand)
    requires SentInHand(start, answers, sent) && |sent| < |answers| && hand == Steered(start, answers[..|sent|])
    ensures SentInHand(start, answers, sent + [Attempt(hand.first, hand.batch)])
    ensures Steered(start, answers[..|sent| + 1]) == Steer(hand, answers[|sent|])
  {
    assert answers[..|sent| + 1][..|sent|] == answers[..|sent|];
  }

  lemma {:induction false} SteeredFirst(hand: Hand, answer: Answer, rest: seq<Answer>)
    ensures Steered(hand, [answer] + rest) == Steered(Steer(hand, answer), rest)
    decreases |rest|
  {
    var all := [answer] + rest;
    if rest == [] {
      assert all[..0] == [];
    } else {
      assert all[..|all| - 1] == [answer] + rest[..|rest| - 1];
      SteeredFirst(hand, answer, rest[..|rest| - 1]);
    }
  }

  /** The mark the trims of the first slots leave: the last one asked for that succeeded. */
  function Mark(mark: nat, asked: seq<Option<nat>>, trims: seq<bool>): nat
    requires |asked| <= |trims|
  {
    if asked == [] then mark else
      var n := |asked| - 1;
      if asked[n].Some? && trims[n] then asked[n].value else Mark(mark, asked[..n], trims)
  }

  /** Slot i asks for a trim only after nil, and then for the one that is due where the writer then stands, if any is. */
  ghost predicate TrimDue(start: Hand, mark: nat, answers: seq<Answer>, trims: seq<bool>, retain: nat, stride: nat,
                          asked: seq<Option<nat>>, i: nat)
    requires i < |asked| <= |answers| == |trims|
  {
    var next := AttemptAt(start, answers, i + 1).first;
    && next >= 1
    && asked[i] == if answers[i].outcome == Nil then TrimTarget(next, Mark(mark, asked[..i], trims), retain, stride) else None
  }

  ghost predicate TrimsDue(start: Hand, mark: nat, answers: seq<Answer>, trims: seq<bool>, retain: nat, stride: nat,
                           asked: seq<Option<nat>>)
    requires |asked| <= |answers| == |trims|
  {
    forall i :: 0 <= i < |asked| ==> TrimDue(start, mark, answers, trims, retain, stride, asked, i)
  }

  lemma {:induction false} OneMoreTrim(start: Hand, mark: nat, answers: seq<Answer>, trims: seq<bool>, retain: nat, stride: nat,
                                       asked: seq<Option<nat>>, last: Option<nat>)
    requires |asked| < |answers| == |trims| && TrimsDue(start, mark, answers, trims, retain, stride, asked)
    requires var i := |asked|;
             var next := AttemptAt(start, answers, i + 1).first;
             next >= 1
             && last == if answers[i].outcome == Nil then TrimTarget(next, Mark(mark, asked, trims), retain, stride) else None
    ensures TrimsDue(start, mark, answers, trims, retain, stride, asked + [last])
    ensures Mark(mark, asked + [last], trims)
         == if last.Some? && trims[|asked|] then last.value else Mark(mark, asked, trims)
  {
    var more := asked + [last];
    assert more[..|asked|] == asked;
    forall i | 0 <= i < |more|
      ensures TrimDue(start, mark, answers, trims, retain, stride, more, i)
    {
      if i < |asked| {
        assert TrimDue(start, mark, answers, trims, retain, stride, asked, i);
        assert more[..i] == asked[..i];
      }
    }
  }

  /** A writer configured to retain nothing never asks for a trim. */
  lemma {:induction false} ZeroNeverTrims(start: Hand, mark: nat, answers: seq<Answer>, trims: seq<bool>, stride: nat,
                                          asked: seq<Option<nat>>)
    requires |asked| <= |answers| == |trims| && TrimsDue(start, mark, answers, trims, 0, stride, asked)
    ensures Mark(mark, asked, trims) == mark
    ensures forall i :: 0 <= i < |asked| ==> asked[i] == None
    decreases |asked|
  {
    if asked != [] {
      var n := |asked| - 1;
      forall i | 0 <= i < n
        ensures TrimDue(start, mark, answers, trims, 0, stride, asked[..n], i)
      {
        assert TrimDue(start, mark, answers, trims, 0, stride, asked, i);
        assert asked[..n][..i] == asked[..i];
      }
      ZeroNeverTrims(start, mark, answers, trims, stride, asked[..n]);
      assert TrimDue(start, mark, answers, trims, 0, stride, asked, n);
      forall i | 0 <= i < n
        ensures asked[i] == None
      {
        assert asked[..n][i] == asked[i];
      }
    }
  }

  class Writer {
    var next: nat
    var trimmed: nat

    constructor (located: nat)
      ensures next == located && trimmed == 0
    {
      next := located;
      trimmed := 0;
    }

    /**
     The run: a slot for each answer, up to the first that says the log is lost. Each
     slot sends the batch in hand at the position; a batch is drawn once and goes again,
     the same bytes, until it is answered with nil. After nil the trim that is due is
     asked for; `trims` says which ones succeed.
     */
    method Run(answers: seq<Answer>, draws: seq<seq<Bytes>>, trims: seq<bool>, retain: nat, stride: nat)
      returns (sent: seq<Attempt>, asked: seq<Option<nat>>)
      requires |draws| > |answers| == |trims| && next >= 1
      requires forall i :: 0 <= i < |answers| ==> answers[i].Sane()
      modifies this
      ensures |asked| == |sent| <= |answers|
      ensures |sent| < |answers| ==> sent != [] && answers[|sent| - 1].outcome == Fenced
      ensures forall i :: 0 <= i < |sent| - 1 ==> answers[i].outcome != Fenced
      ensures var start := Hand(old(next), draws[0], draws[1..]);
              && SentInHand(start, answers, sent)
              && next == AttemptAt(start, answers, |sent|).first
              && TrimsDue(start, old(trimmed), answers, trims, retain, stride, asked)
      ensures trimmed == Mark(old(trimmed), asked, trims)
      ensures retain == 0 ==> trimmed == old(trimmed) && forall i :: 0 <= i < |asked| ==> asked[i] == None
    {
      ghost var start, mark := Hand(next, draws[0], draws[1..]), trimmed;
      ghost var hand := start;
      var batch: seq<Bytes> := [];
      var left := draws;
      var drawNow := true;
      sent, asked := [], [];
      for i := 0 to |answers|
        invariant |asked| == |sent| == i && next >= 1 && |hand.draws| >= |answers| - i
        invariant hand == Steered(start, answers[..i]) && next == hand.first
        invariant if drawNow then left == [hand.batch] + hand.draws else batch == hand.batch && left == hand.draws
        invariant SentInHand(start, answers, sent)
        invariant forall k :: 0 <= k < i ==> answers[k].outcome != Fenced
        invariant TrimsDue(start, mark, answers, trims, retain, stride, asked) && trimmed == Mark(mark, asked, trims)
      {
        if drawNow {
          assert left[1..] == hand.draws;
          batch, left := left[0], left[1..];
        }
        assert left == [left[0]] + left[1..];
        OneMoreSent(start, answers, sent, hand);
        sent := sent + [Attempt(next, batch)];
        hand := Steer(hand, answers[i]);
        var lost, called;
        drawNow, lost, called := Slot(answers[i], |batch|, trims[i], retain, stride);
        OneMoreTrim(start, mark, answers, trims, retain, stride, asked, called);
        asked := asked + [called];
        if lost {
          break;
        }
      }
      if retain == 0 {
        ZeroNeverTrims(start, mark, answers, trims, stride, asked);
      }
    }

    /** One slot: the append, and after nil a trim if one is due. */
    method Slot(answer: Answer, len: nat, trimOk: bool, retain: nat, stride: nat)
      returns (done: bool, lost: bool, called: Option<nat>)
      requires next >= 1 && answer.Sane()
      modifies this
      ensures next == NextAfter(old(next), answer.outcome, answer.located, len) && next >= 1
      ensures done == (answer.outcome == Nil) && lost == (answer.outcome == Fenced)
      ensures called == if done then TrimTarget(next, old(trimmed), retain, stride) else None
      ensures trimmed == if called.Some? && trimOk then called.value else old(trimmed)
    {
      called := None;
      done, lost := Append(answer.outcome, answer.located, len);
      if done {
        called := Trim(retain, stride, trimOk);
      }
    }

    /** `done` is false where the same batch goes again; `lost` is the end of the run. */
    method Append(outcome: Outcome, located: Option<nat>, len: nat) returns (done: bool, lost: bool)
      modifies this`next
      ensures next == NextAfter(old(next), outcome, located, len)
      ensures done == (outcome == Nil) && lost == (outcome == Fenced)
    {
      done, lost := false, false;
      match outcome
      case Nil =>
        next := next + len;
        done := true;
      case Fenced =>
        lost := true;
      case AlreadyWritten =>
        Resync(located);
      case Gap =>
        Resync(located);
      case Failed =>
    }

    /** The position moves to what the read answered, if it did. */
    method Resync(located: Option<nat>)
      modifies this`next
      ensures next == if located.Some? then located.value else old(next)
    {
      if located.Some? {
        next := located.value;
      }
    }

    /** `trimOk` is whether the store's Trim succeeded, if it is called. */
    method Trim(retain: nat, stride: nat, trimOk: bool) returns (called: Option<nat>)
      requires next >= 1
      modifies this`trimmed
      ensures called == TrimTarget(next, old(trimmed), retain, stride)
      ensures trimmed == if called.Some? && trimOk then called.value else old(trimmed)
    {
      called := None;
      if retain == 0 {
        return;
      }
      var written := next - 1;
      if written <= retain {
        return;
      }
      var upTo := written - retain;
      if upTo < trimmed + stride {
        return;
      }
      called := Some(upTo);
      if trimOk {
        trimmed := upTo;
      }
    }
  }

  // ---------- the counts of a report ----------

  function RowCount(batch: seq<Bytes>): nat {
    if batch == [] then 0 else RowCount(batch[..|batch| - 1]) + |ChunksOf(batch[|batch| - 1])|
  }

  function CutCount(batch: seq<Bytes>): nat {
    if batch == [] then 0
    else CutCount(batch[..|batch| - 1]) + if |batch[|batch| - 1]| > MAX_ENTRY_CHUNK then 1 else 0
  }

  function ByteCount(batch: seq<Bytes>): nat {
    if batch == [] then 0 else ByteCount(batch[..|batch| - 1]) + |batch[|batch| - 1]|
  }

  /** The rows, cut entries and bytes counted are those the store's own chunking writes. */
  method Record(batch: seq<Bytes>) returns (rows: nat, cut: nat, bytes: nat)
    ensures rows == RowCount(batch) && cut == CutCount(batch) && bytes == ByteCount(batch)
  {
    rows, cut, bytes := 0, 0, 0;
    for i := 0 to |batch|
      invariant rows == RowCount(batch[..i]) && cut == CutCount(batch[..i]) && bytes == ByteCount(batch[..i])
    {
      var payload := batch[i];
      ChunksOfSplits(payload);
      assert batch[..i + 1][..i] == batch[..i] && batch[..i + 1][i] == payload;
      bytes := bytes + |payload|;
      var chunks := Max(1, (|payload| + MAX_ENTRY_CHUNK - 1) / MAX_ENTRY_CHUNK);
      rows := rows + chunks;
      if chunks > 1 {
        cut := cut + 1;
      }
    }
    assert batch[..|batch|] == batch;
  }

  /** The row count is the number of rows the batch's entries are laid out in. */
  lemma {:induction false} RowCountIsRows(epoch: nat, first: nat, batch: seq<Bytes>)
    ensures |RowsOf(BatchEntries(epoch, first, batch))| == RowCount(batch)
    decreases |batch|
  {
    var n := |batch|;
    if n > 0 {
      var entries := BatchEntries(epoch, first, batch);
      RowCountIsRows(epoch, first, batch[..n - 1]);
      assert entries[..n - 1] == BatchEntries(epoch, first, batch[..n - 1]);
      RowsOfSnoc(entries, n - 1);
      assert entries[..n - 1 + 1] == entries;
      PartRowsAt(first + n - 1, epoch, ChunksOf(batch[n - 1]), 0);
    }
  }

  /** The entries of a batch that take more than one row. */
  function CutEntries(batch: seq<Bytes>): set<nat> {
    set i: nat | i < |batch| && |ChunksOf(batch[i])| > 1
  }

  lemma {:induction false} CutCountIsCut(batch: seq<Bytes>)
    ensures CutCount(batch) == |CutEntries(batch)|
    decreases |batch|
  {
    if batch == [] {
      assert CutEntries(batch) == {};
    } else {
      var n := |batch| - 1;
      CutCountIsCut(batch[..n]);
      LastIsCut(batch[..n], batch[n]);
      assert batch == batch[..n] + [batch[n]];
    }
  }

  lemma {:induction false} LastIsCut(init: seq<Bytes>, last: Bytes)
    ensures |CutEntries(init + [last])| == |CutEntries(init)| + if |last| > MAX_ENTRY_CHUNK then 1 else 0
  {
    ChunksOfSplits(last);
    assert |ChunksOf(last)| > 1 <==> |last| > MAX_ENTRY_CHUNK;
    var all := init + [last];
    assert forall i: nat | i < |init| :: all[i] == init[i];
    if |last| > MAX_ENTRY_CHUNK {
      assert CutEntries(all) == CutEntries(init) + {|init|};
    } else {
      assert CutEntries(all) == CutEntries(init);
    }
  }

  /** The bytes counted are those of the payloads end to end. */
  lemma {:induction false} ByteCountIsLength(batch: seq<Bytes>)
    ensures ByteCount(batch) == |Joined(batch)|
    decreases |batch|
  {
    if batch != [] {
      ByteCountIsLength(batch[..|batch| - 1]);
      JoinedSnoc(batch[..|batch| - 1], batch[|batch| - 1]);
      assert batch == batch[..|batch| - 1] + [batch[|batch| - 1]];
    }
  }

  lemma {:induction false} JoinedSnoc(parts: seq<Bytes>, last: Bytes)
    ensures |Joined(parts + [last])| == |Joined(parts)| + |last|
    decreases |parts|
  {
    if parts == [] {
      assert Joined([last]) == last + Joined([]);
    } else {
      assert (parts + [last])[1..] == parts[1..] + [last];
      JoinedSnoc(parts[1..], last);
    }
  }

  // ---------- the writer and the log ----------

  datatype Stage = Ready | Sent | Landed | Refused | Asking(gap: bool) | Told(next: nat, gap: bool) | Lost

  /** A batch answered with nil, how often it had been refused as already written, and how often moved on meanwhile. */
  datatype Done = Done(batch: seq<Bytes>, acks: nat, moved: nat)

  /** `acks` and `moved` count for the batch in hand, `done` is what was answered with nil. */
  datatype System = System(log: A.Log, next: nat, batch: seq<Bytes>, stage: Stage, strays: set<Attempt>,
                           acks: nat, moved: nat, done: seq<Done>)

  datatype Event =
    | Other(call: A.Call)
    | Send
    | Execute
    | Reply(drawn: seq<Bytes>)  // nil: the writer moves on and draws its next batch
    | Diagnose
    | Ask                       // NextSeqno reads the row
    | Settle(answered: bool)    // its answer reaches the writer, or does not
    | GiveUp
    | Stray(attempt: Attempt)

  predicate Enabled(e: nat, sys: System, ev: Event) {
    match ev
    case Other(_) => true
    case Send => sys.stage == Ready && sys.batch != []
    case Execute => sys.stage == Sent
    case Reply(drawn) => sys.stage == Landed && |drawn| == |sys.batch|
    case Diagnose => sys.stage == Refused && e > 0 && sys.next >= FIRST_SEQNO
    case Ask => sys.stage.Asking?
    case Settle(answered) => sys.stage.Told? || (sys.stage.Asking? && !answered)
    case GiveUp => sys.stage == Sent || sys.stage == Landed || sys.stage == Refused
    case Stray(attempt) => attempt in sys.strays
  }

  function CallOf(e: nat, a: Attempt): A.Call {
    A.Append(e, a.first, a.payloads)
  }

  function InHand(sys: System): Attempt {
    Attempt(sys.next, sys.batch)
  }

  function Next(e: nat, sys: System, ev: Event): System
    requires Enabled(e, sys, ev)
  {
    match ev
    case Other(call) => sys.(log := A.Step(sys.log, call))
    case Send => sys.(stage := Sent)
    case Execute =>
      var call := CallOf(e, InHand(sys));
      sys.(log := A.Step(sys.log, call), stage := if A.Admits(sys.log, call) then Landed else Refused)
    case Reply(drawn) =>
      sys.(next := sys.next + |sys.batch|, batch := drawn, stage := Ready, acks := 0, moved := 0,
           done := sys.done + [Done(sys.batch, sys.acks, sys.moved)])
    case Diagnose =>
      (match AppendRefusal(e, sys.next, sys.log.Found())
       case Some(ErrFenced) => sys.(stage := Lost)
       case Some(ErrAlreadyWritten) => sys.(stage := Asking(false), acks := sys.acks + 1)
       case Some(ErrGap) => sys.(stage := Asking(true))
       case None => sys.(stage := Ready))
    case Ask => sys.(stage := Told(sys.log.NextSeqno(), sys.stage.gap))
    case Settle(answered) =>
      if answered && sys.stage.Told? then sys.(next := sys.stage.next, stage := Ready, moved := sys.moved + 1)
      else sys.(stage := Ready)
    case GiveUp =>
      sys.(stage := Ready, strays := if sys.stage == Sent then sys.strays + {InHand(sys)} else sys.strays)
    case Stray(a) => sys.(log := A.Step(sys.log, CallOf(e, a)))
  }

  predicate Possible(e: nat, sys: System, run: seq<Event>)
    decreases |run|
  {
    run == [] || (Enabled(e, sys, run[0]) && Possible(e, Next(e, sys, run[0]), run[1..]))
  }

  function End(e: nat, sys: System, run: seq<Event>): System
    requires Possible(e, sys, run)
    decreases |run|
  {
    if run == [] then sys else End(e, Next(e, sys, run[0]), run[1..])
  }

  /** The writer as claim leaves it: fenced, and placed where the log said its next append goes. */
  function Claimed(log: A.Log, batch: seq<Bytes>): System {
    System(log, log.NextSeqno(), batch, Ready, {}, 0, 0, [])
  }

  /** The log a writer is placed on: any log, its fence, and whatever ran before it asked. */
  function Asked(a: A.Log, e: nat, before: seq<A.Call>): A.Log {
    A.Run(A.Step(a, A.Fence(e)), before)
  }

  // ---------- the loop and the log ----------

  /** The answer an event brings the loop, if it ends a slot. */
  function Heard(e: nat, sys: System, ev: Event): seq<Answer>
    requires Enabled(e, sys, ev)
  {
    match ev
    case Reply(_) => [Answer(Nil, None)]
    case GiveUp => [Answer(Failed, None)]
    case Settle(answered) =>
      [Answer(if sys.stage.gap then Gap else AlreadyWritten, if answered && sys.stage.Told? then Some(sys.stage.next) else None)]
    case Diagnose =>
      (match AppendRefusal(e, sys.next, sys.log.Found())
       case Some(ErrFenced) => [Answer(Fenced, None)]
       case None => [Answer(Failed, None)]
       case _ => [])
    case _ => []
  }

  function AllHeard(e: nat, sys: System, run: seq<Event>): seq<Answer>
    requires Possible(e, sys, run)
    decreases |run|
  {
    if run == [] then [] else Heard(e, sys, run[0]) + AllHeard(e, Next(e, sys, run[0]), run[1..])
  }

  function Drawn(run: seq<Event>): seq<seq<Bytes>> {
    if run == [] then [] else (if run[0].Reply? then [run[0].drawn] else []) + Drawn(run[1..])
  }

  /** The hand of the loop while the automaton is in a state and has these batches yet to draw. */
  function HandOf(sys: System, draws: seq<seq<Bytes>>): Hand {
    Hand(sys.next, sys.batch, draws)
  }

  lemma {:induction false} EventSteers(e: nat, sys: System, ev: Event, draws: seq<seq<Bytes>>)
    requires Enabled(e, sys, ev)
    ensures var before := HandOf(sys, (if ev.Reply? then [ev.drawn] else []) + draws);
            Steered(before, Heard(e, sys, ev)) == HandOf(Next(e, sys, ev), draws)
  {
    var before := HandOf(sys, (if ev.Reply? then [ev.drawn] else []) + draws);
    var heard := Heard(e, sys, ev);
    if heard != [] {
      assert heard[..0] == [];
      assert Steered(before, heard) == Steer(before, heard[0]);
    }
  }

  lemma {:induction false} HeardFirst(e: nat, sys: System, run: seq<Event>, hand: Hand)
    requires run != [] && Possible(e, sys, run)
    ensures var next := Next(e, sys, run[0]);
            Steered(hand, AllHeard(e, sys, run))
            == Steered(Steered(hand, Heard(e, sys, run[0])), AllHeard(e, next, run[1..]))
  {
    var heard, rest := Heard(e, sys, run[0]), AllHeard(e, Next(e, sys, run[0]), run[1..]);
    if heard == [] {
      assert heard + rest == rest;
    } else {
      assert heard == [heard[0]] && heard[..0] == [];
      SteeredFirst(hand, heard[0], rest);
      assert Steered(hand, heard) == Steer(hand, heard[0]);
    }
  }

  /**
   The loop is the automaton: given the answers that any run of it brings, the loop has
   the automaton's position and its batch in hand.
   */
  lemma {:induction false} LoopFollowsTheRun(e: nat, sys: System, run: seq<Event>)
    requires Possible(e, sys, run)
    ensures Steered(HandOf(sys, Drawn(run)), AllHeard(e, sys, run)) == HandOf(End(e, sys, run), [])
    decreases |run|
  {
    if run != [] {
      var next, draws := Next(e, sys, run[0]), Drawn(run[1..]);
      EventSteers(e, sys, run[0], draws);
      HeardFirst(e, sys, run, HandOf(sys, Drawn(run)));
      LoopFollowsTheRun(e, next, run[1..]);
    }
  }

  /** A writer that has lost its log hears nothing more and stays where it is. */
  lemma {:induction false} LostHearsNothing(e: nat, sys: System, run: seq<Event>)
    requires sys.stage == Lost && Possible(e, sys, run)
    ensures AllHeard(e, sys, run) == [] && End(e, sys, run).stage == Lost
    decreases |run|
  {
    if run != [] {
      LostHearsNothing(e, Next(e, sys, run[0]), run[1..]);
    }
  }

  /** A run stops a writer exactly when it brings the answer that the log is lost, which is then the last and the only one. */
  lemma {:induction false} LostIffFenced(e: nat, sys: System, run: seq<Event>)
    requires sys.stage != Lost && Possible(e, sys, run)
    ensures var heard := AllHeard(e, sys, run);
            && (End(e, sys, run).stage == Lost <==> heard != [] && heard[|heard| - 1].outcome == Fenced)
            && (forall i :: 0 <= i < |heard| - 1 ==> heard[i].outcome != Fenced)
    decreases |run|
  {
    if run != [] {
      var next := Next(e, sys, run[0]);
      if next.stage == Lost {
        LostHearsNothing(e, next, run[1..]);
      } else {
        LostIffFenced(e, next, run[1..]);
      }
    }
  }

  // ---------- no gap, whoever else is there ----------

  ghost predicate NoGap(sys: System) {
    && 1 <= sys.next <= |sys.log.entries| + 1
    && (sys.stage.Told? ==> 1 <= sys.stage.next <= |sys.log.entries| + 1)
    && (sys.stage == Landed ==> sys.next + |sys.batch| <= |sys.log.entries| + 1)
    && (sys.stage.Asking? ==> !sys.stage.gap)
  }

  lemma {:induction false} StepKeepsNoGap(e: nat, sys: System, ev: Event)
    requires NoGap(sys) && Enabled(e, sys, ev)
    ensures NoGap(Next(e, sys, ev))
  {
  }

  lemma {:induction false} RunKeepsNoGap(e: nat, sys: System, run: seq<Event>)
    requires NoGap(sys) && Possible(e, sys, run)
    ensures NoGap(End(e, sys, run))
    decreases |run|
  {
    if run != [] {
      StepKeepsNoGap(e, sys, run[0]);
      RunKeepsNoGap(e, Next(e, sys, run[0]), run[1..]);
    }
  }

  /**
   ErrGap is unreachable. From a claimed log on, on every run and whatever anyone else
   does to the log, under the writer's own epoch included, its position never lies
   beyond the log's end, so that no diagnosis of it is ever a gap.
   */
  lemma {:induction false} GapIsUnreachable(a: A.Log, e: nat, before: seq<A.Call>, batch: seq<Bytes>, run: seq<Event>)
    requires A.Admits(a, A.Fence(e)) && Possible(e, Claimed(Asked(a, e, before), batch), run)
    ensures var sys := End(e, Claimed(Asked(a, e, before), batch), run);
            && 1 <= sys.next <= |sys.log.entries| + 1
            && AppendRefusal(e, sys.next, sys.log.Found()) != Some(ErrGap)
            && (sys.stage.Asking? ==> !sys.stage.gap)
  {
    RunKeepsNoGap(e, Claimed(Asked(a, e, before), batch), run);
  }

  // ---------- what its only writer makes of the log ----------

  /** Nobody else appends; anybody may fence and trim. */
  predicate Alone(run: seq<Event>) {
    forall i :: 0 <= i < |run| ==> run[i].Other? ==> !run[i].call.Append?
  }

  function Times(batch: seq<Bytes>, n: nat): seq<Bytes> {
    if n == 0 then [] else Times(batch, n - 1) + batch
  }

  /** The batches answered with nil, each once and once more for every time the writer moved on with it in hand. */
  function Copied(done: seq<Done>): seq<Bytes> {
    if done == [] then [] else
      var last := done[|done| - 1];
      Copied(done[..|done| - 1]) + Times(last.batch, last.moved + 1)
  }

  /** What is in the log below the position. */
  function Written(sys: System): seq<Bytes> {
    Copied(sys.done) + Times(sys.batch, sys.moved)
  }

  /** The log `base` with these payloads after it under epoch `e`. */
  function Continued(e: nat, base: seq<Entry>, payloads: seq<Bytes>): (entries: seq<Entry>)
    ensures |entries| == |base| + |payloads|
  {
    base + BatchEntries(e, |base| + 1, payloads)
  }

  lemma {:induction false} ContinuedMore(e: nat, base: seq<Entry>, payloads: seq<Bytes>, more: seq<Bytes>)
    ensures Continued(e, base, payloads + more)
         == Continued(e, base, payloads) + BatchEntries(e, |base| + |payloads| + 1, more)
  {
  }

  /** The log is the base and what is written, and the batch in hand once more if it has landed at the position. */
  ghost predicate Shape(e: nat, base: seq<Entry>, log: A.Log, written: seq<Bytes>, next: nat, batch: seq<Bytes>) {
    && next == |base| + |written| + 1 && batch != [] && log.owner >= e > 0
    && (log.entries == Continued(e, base, written) || log.entries == Continued(e, base, written + batch))
  }

  predicate HasLanded(sys: System) {
    sys.next <= |sys.log.entries|
  }

  ghost predicate Counted(sys: System) {
    && (sys.moved > 0 ==> sys.acks > 0)
    && (sys.acks > 0 && sys.moved == 0 ==> HasLanded(sys) && sys.stage != Landed)
    && (forall i :: 0 <= i < |sys.done| ==> sys.done[i].batch != [] && (sys.done[i].moved == 0 <==> sys.done[i].acks == 0))
  }

  ghost predicate Staged(e: nat, sys: System) {
    && (sys.stage == Landed || sys.stage.Asking? || sys.stage.Told? ==> HasLanded(sys))
    && (sys.stage == Refused ==> HasLanded(sys) || sys.log.owner > e)
    && (sys.stage.Asking? || sys.stage.Told? ==> sys.acks > 0)
    && (sys.stage.Told? ==> sys.stage.next == |sys.log.entries| + 1)
    && (forall a :: a in sys.strays ==> a.first < sys.next || a == InHand(sys))
  }

  ghost predicate Inv(e: nat, base: seq<Entry>, sys: System, len: nat) {
    && Shape(e, base, sys.log, Written(sys), sys.next, sys.batch) && |sys.batch| == len
    && Counted(sys) && Staged(e, sys)
  }

  /** The batch in hand, sent now or before, lands where the log ends at the position and nowhere else. */
  lemma {:induction false} Lands(e: nat, base: seq<Entry>, log: A.Log, written: seq<Bytes>, next: nat, batch: seq<Bytes>, a: Attempt)
    requires Shape(e, base, log, written, next, batch) && (a.first < next || a == Attempt(next, batch))
    ensures var t := A.Step(log, CallOf(e, a));
            && Shape(e, base, t, written, next, batch)
            && (A.Admits(log, CallOf(e, a)) ==> |log.entries| < next <= |t.entries|)
            && (!A.Admits(log, CallOf(e, a)) && a.first == next ==> log.owner > e || next <= |log.entries|)
  {
    ContinuedMore(e, base, written, batch);
  }

  lemma {:induction false} StrayKeepsInv(e: nat, base: seq<Entry>, sys: System, a: Attempt, len: nat)
    requires Inv(e, base, sys, len) && a in sys.strays
    ensures Inv(e, base, Next(e, sys, Stray(a)), len)
  {
    Lands(e, base, sys.log, Written(sys), sys.next, sys.batch, a);
  }

  lemma {:induction false} ExecuteKeepsInv(e: nat, base: seq<Entry>, sys: System, len: nat)
    requires Inv(e, base, sys, len) && Enabled(e, sys, Execute)
    ensures Inv(e, base, Next(e, sys, Execute), len)
  {
    Lands(e, base, sys.log, Written(sys), sys.next, sys.batch, InHand(sys));
  }

  /** Nil: what was written is joined by the batch, which lies at the position. */
  lemma {:induction false} ReplyKeepsInv(e: nat, base: seq<Entry>, sys: System, drawn: seq<Bytes>, len: nat)
    requires Inv(e, base, sys, len) && Enabled(e, sys, Reply(drawn))
    ensures Inv(e, base, Next(e, sys, Reply(drawn)), len)
  {
    var t := Next(e, sys, Reply(drawn));
    ReplyWrites(sys, drawn);
    ReplyShape(e, base, sys.log, Written(sys), sys.next, sys.batch, drawn);
    ReplyCounts(sys, t, drawn);
    assert Shape(e, base, t.log, Written(t), t.next, t.batch);
  }

  /** The batch that has landed joins what is written. */
  lemma {:induction false} ReplyShape(e: nat, base: seq<Entry>, log: A.Log, written: seq<Bytes>, next: nat, batch: seq<Bytes>,
                                      drawn: seq<Bytes>)
    requires Shape(e, base, log, written, next, batch) && next <= |log.entries| && drawn != []
    ensures Shape(e, base, log, written + batch, next + |batch|, drawn) && |log.entries| < next + |batch|
  {
  }

  lemma {:induction false} ReplyCounts(sys: System, t: System, drawn: seq<Bytes>)
    requires Counted(sys) && sys.stage == Landed && sys.batch != [] && t.acks == t.moved == 0
    requires t.done == sys.done + [Done(sys.batch, sys.acks, sys.moved)]
    ensures Counted(t)
  {
  }

  lemma {:induction false} ReplyWrites(sys: System, drawn: seq<Bytes>)
    ensures Copied(sys.done + [Done(sys.batch, sys.acks, sys.moved)]) + Times(drawn, 0) == Written(sys) + sys.batch
  {
    var done := sys.done + [Done(sys.batch, sys.acks, sys.moved)];
    assert done[..|done| - 1] == sys.done;
    assert Times(sys.batch, sys.moved + 1) == Times(sys.batch, sys.moved) + sys.batch;
  }

  /** Moving on with the batch in hand leaves its copy behind as one more that is written. */
  lemma {:induction false} SettleKeepsInv(e: nat, base: seq<Entry>, sys: System, answered: bool, len: nat)
    requires Inv(e, base, sys, len) && Enabled(e, sys, Settle(answered))
    ensures Inv(e, base, Next(e, sys, Settle(answered)), len)
  {
    if answered {
      assert Copied(sys.done) + Times(sys.batch, sys.moved + 1) == Written(sys) + sys.batch;
      assert |sys.log.entries| == |base| + |Written(sys) + sys.batch|;
    }
  }

  lemma {:induction false} DiagnoseKeepsInv(e: nat, base: seq<Entry>, sys: System, len: nat)
    requires Inv(e, base, sys, len) && Enabled(e, sys, Diagnose)
    ensures Inv(e, base, Next(e, sys, Diagnose), len)
  {
  }

  lemma {:induction false} PlainKeepsInv(e: nat, base: seq<Entry>, sys: System, ev: Event, len: nat)
    requires Inv(e, base, sys, len) && Enabled(e, sys, ev) && (ev.Send? || ev.Ask? || ev.GiveUp?)
    ensures Inv(e, base, Next(e, sys, ev), len)
  {
  }

  lemma {:induction false} OtherKeepsInv(e: nat, base: seq<Entry>, sys: System, call: A.Call, len: nat)
    requires Inv(e, base, sys, len) && !call.Append?
    ensures Inv(e, base, sys.(log := A.Step(sys.log, call)), len)
  {
  }

  lemma {:induction false} StepKeepsInv(e: nat, base: seq<Entry>, sys: System, ev: Event, len: nat)
    requires Inv(e, base, sys, len) && Enabled(e, sys, ev) && (ev.Other? ==> !ev.call.Append?)
    ensures Inv(e, base, Next(e, sys, ev), len)
  {
    match ev
    case Other(call) => OtherKeepsInv(e, base, sys, call, len);
    case Execute => ExecuteKeepsInv(e, base, sys, len);
    case Reply(drawn) => ReplyKeepsInv(e, base, sys, drawn, len);
    case Diagnose => DiagnoseKeepsInv(e, base, sys, len);
    case Settle(answered) => SettleKeepsInv(e, base, sys, answered, len);
    case Stray(a) => StrayKeepsInv(e, base, sys, a, len);
    case _ => PlainKeepsInv(e, base, sys, ev, len);
  }

  lemma {:induction false} RunKeepsInv(e: nat, base: seq<Entry>, sys: System, run: seq<Event>, len: nat)
    requires Inv(e, base, sys, len) && Possible(e, sys, run) && Alone(run)
    ensures Inv(e, base, End(e, sys, run), len)
    decreases |run|
  {
    if run != [] {
      StepKeepsInv(e, base, sys, run[0], len);
      RunKeepsInv(e, base, Next(e, sys, run[0]), run[1..], len);
    }
  }

  lemma {:induction false} ReachableInv(a: A.Log, e: nat, before: seq<A.Call>, batch: seq<Bytes>, run: seq<Event>)
    requires A.Admits(a, A.Fence(e)) && batch != []
    requires Possible(e, Claimed(Asked(a, e, before), batch), run) && Alone(run)
    ensures Inv(e, Asked(a, e, before).entries, End(e, Claimed(Asked(a, e, before), batch), run), |batch|)
  {
    var asked := Asked(a, e, before);
    A.OwnerNeverFalls(A.Step(a, A.Fence(e)), before);
    assert Continued(e, asked.entries, []) == asked.entries;
    RunKeepsInv(e, asked.entries, Claimed(asked, batch), run, |batch|);
  }

  /**
   Under sole ownership the log ends just below the writer's position or one batch
   above it, on every run: what is not yet acknowledged is at most the batch in hand.
   */
  lemma {:induction false} LogEndsAtThePosition(a: A.Log, e: nat, before: seq<A.Call>, batch: seq<Bytes>, run: seq<Event>)
    requires A.Admits(a, A.Fence(e)) && batch != []
    requires Possible(e, Claimed(Asked(a, e, before), batch), run) && Alone(run)
    ensures var sys := End(e, Claimed(Asked(a, e, before), batch), run);
            |sys.log.entries| == sys.next - 1 || |sys.log.entries| == sys.next - 1 + |batch|
  {
    ReachableInv(a, e, before, batch, run);
    var sys := End(e, Claimed(Asked(a, e, before), batch), run);
    assert |Written(sys) + sys.batch| == |Written(sys)| + |batch|;
  }

  function Batches(done: seq<Done>): seq<seq<Bytes>> {
    seq(|done|, i requires 0 <= i < |done| => done[i].batch)
  }

  lemma {:induction false} TimesLength(batch: seq<Bytes>, n: nat)
    requires batch != []
    ensures |Times(batch, n)| >= n
    ensures |Times(batch, n + 1)| == |batch| <==> n == 0
    ensures n == 0 ==> Times(batch, n + 1) == batch
    decreases n
  {
    if n > 0 {
      TimesLength(batch, n - 1);
    } else {
      assert Times(batch, 0) + batch == batch;
    }
  }

  /** Copies are the batches once each exactly when the writer never moved on with one in hand. */
  lemma {:induction false} CopiedOnce(done: seq<Done>)
    requires forall i :: 0 <= i < |done| ==> done[i].batch != []
    ensures |Copied(done)| >= |R.Flat(Batches(done))|
    ensures Copied(done) == R.Flat(Batches(done)) <==> forall i :: 0 <= i < |done| ==> done[i].moved == 0
    ensures |Copied(done)| == |R.Flat(Batches(done))| ==> Copied(done) == R.Flat(Batches(done))
    decreases |done|
  {
    if done != [] {
      var init, last := done[..|done| - 1], done[|done| - 1];
      CopiedOnce(init);
      TimesLength(last.batch, last.moved);
      assert Batches(done)[..|done| - 1] == Batches(init);
    }
  }

  /**
   When the load writer is exactly-once. From a claimed log on, whoever fences and
   trims, the log of its only writer is what it was, then every batch answered with nil
   as often as it was moved on with, and once more, in the order drawn, then the copies
   of the batch in hand. A batch was moved on with exactly when its replay had been
   counted as an ack, so the batches are there once each if and only if that counter
   stood still.
   */
  lemma {:induction false} OnceIffNoAcks(a: A.Log, e: nat, before: seq<A.Call>, batch: seq<Bytes>, run: seq<Event>)
    requires A.Admits(a, A.Fence(e)) && batch != []
    requires Possible(e, Claimed(Asked(a, e, before), batch), run) && Alone(run)
    ensures var base, sys := Asked(a, e, before).entries, End(e, Claimed(Asked(a, e, before), batch), run);
            && (sys.log.entries == Continued(e, base, Copied(sys.done) + Times(sys.batch, sys.moved))
                || sys.log.entries == Continued(e, base, Copied(sys.done) + Times(sys.batch, sys.moved) + sys.batch))
            && (forall i :: 0 <= i < |sys.done| ==> (sys.done[i].moved == 0 <==> sys.done[i].acks == 0))
            && (Copied(sys.done) == R.Flat(Batches(sys.done)) <==> forall i :: 0 <= i < |sys.done| ==> sys.done[i].acks == 0)
  {
    ReachableInv(a, e, before, batch, run);
    CopiedOnce(End(e, Claimed(Asked(a, e, before), batch), run).done);
  }

  // ---------- and it gets on ----------

  /** A batch that is not at the position yet lands in one slot, and the writer is done with it. */
  lemma {:induction false} FreshSlot(e: nat, base: seq<Entry>, sys: System, drawn: seq<Bytes>) returns (slot: seq<Event>)
    requires Inv(e, base, sys, |drawn|) && sys.stage == Ready && sys.log.owner == e && !HasLanded(sys)
    ensures slot == [Send] + ([Execute] + ([Reply(drawn)] + [])) && Possible(e, sys, slot)
    ensures var t := End(e, sys, slot);
            t.stage == Ready && t.batch == drawn && t.done == sys.done + [Done(sys.batch, sys.acks, sys.moved)]
  {
    var s1 := Next(e, sys, Send);
    assert |sys.log.entries| == sys.next - 1 by {
      assert |Written(sys) + sys.batch| == |Written(sys)| + |sys.batch|;
    }
    var s2 := Next(e, s1, Execute);
    OneMore(e, s2, Reply(drawn), []);
    OneMore(e, s1, Execute, [Reply(drawn)] + []);
    OneMore(e, sys, Send, [Execute] + ([Reply(drawn)] + []));
    slot := [Send] + ([Execute] + ([Reply(drawn)] + []));
  }

  /** A batch that is at the position already is refused once more; the resync moves the writer past it. */
  lemma {:induction false} ResyncSlot(e: nat, base: seq<Entry>, sys: System, len: nat) returns (slot: seq<Event>, t: System)
    requires Inv(e, base, sys, len) && sys.stage == Ready && sys.log.owner == e && HasLanded(sys)
    ensures slot == [Send] + ([Execute] + ([Diagnose] + ([Ask] + ([Settle(true)] + [])))) && Possible(e, sys, slot)
    ensures t == End(e, sys, slot) && Inv(e, base, t, len)
    ensures t == sys.(next := sys.log.NextSeqno(), acks := sys.acks + 1, moved := sys.moved + 1)
  {
    var s1 := Next(e, sys, Send);
    var s2 := Next(e, s1, Execute);
    assert s2 == sys.(stage := Refused);
    var s3 := Next(e, s2, Diagnose);
    var s4 := Next(e, s3, Ask);
    t := Next(e, s4, Settle(true));
    StepKeepsInv(e, base, sys, Send, len);
    StepKeepsInv(e, base, s1, Execute, len);
    StepKeepsInv(e, base, s2, Diagnose, len);
    StepKeepsInv(e, base, s3, Ask, len);
    StepKeepsInv(e, base, s4, Settle(true), len);
    OneMore(e, s4, Settle(true), []);
    OneMore(e, s3, Ask, [Settle(true)] + []);
    OneMore(e, s2, Diagnose, [Ask] + ([Settle(true)] + []));
    OneMore(e, s1, Execute, [Diagnose] + ([Ask] + ([Settle(true)] + [])));
    OneMore(e, sys, Send, [Execute] + ([Diagnose] + ([Ask] + ([Settle(true)] + []))));
    slot := [Send] + ([Execute] + ([Diagnose] + ([Ask] + ([Settle(true)] + []))));
  }

  lemma {:induction false} TwoRuns(e: nat, sys: System, r1: seq<Event>, r2: seq<Event>)
    requires Possible(e, sys, r1) && Possible(e, End(e, sys, r1), r2)
    ensures Possible(e, sys, r1 + r2) && End(e, sys, r1 + r2) == End(e, End(e, sys, r1), r2)
    decreases |r1|
  {
    if r1 == [] {
      assert r1 + r2 == r2;
    } else {
      TwoRuns(e, Next(e, sys, r1[0]), r1[1..], r2);
      assert (r1 + r2)[0] == r1[0] && (r1 + r2)[1..] == r1[1..] + r2;
    }
  }

  /**
   The writer gets on. From every state its runs reach between two slots, while it owns
   the log, its next slot or the one after can be answered with nil, so that it is done
   with the batch in hand and draws the next.
   */
  lemma {:induction false} NextBatchCanBeReached(a: A.Log, e: nat, before: seq<A.Call>, batch: seq<Bytes>, run: seq<Event>,
                                                 drawn: seq<Bytes>)
    returns (more: seq<Event>)
    requires A.Admits(a, A.Fence(e)) && batch != [] && |drawn| == |batch|
    requires Possible(e, Claimed(Asked(a, e, before), batch), run) && Alone(run)
    requires var sys := End(e, Claimed(Asked(a, e, before), batch), run); sys.stage == Ready && sys.log.owner == e
    ensures var sys := End(e, Claimed(Asked(a, e, before), batch), run);
            && Possible(e, sys, more) && |more| <= 8
            && var t := End(e, sys, more);
               && t.stage == Ready && t.batch == drawn && |t.done| == |sys.done| + 1 && t.done[|sys.done|].batch == sys.batch
  {
    var base := Asked(a, e, before).entries;
    var sys := End(e, Claimed(Asked(a, e, before), batch), run);
    ReachableInv(a, e, before, batch, run);
    if HasLanded(sys) {
      var again, t := ResyncSlot(e, base, sys, |batch|);
      var last := FreshSlot(e, base, t, drawn);
      TwoRuns(e, sys, again, last);
      more := again + last;
    } else {
      more := FreshSlot(e, base, sys, drawn);
    }
  }

  // ---------- but not exactly once ----------

  /** An attempt given up on lands; its replay is refused; the writer resynchronises and sends the batch again. */
  function Twice(stray: Attempt): seq<Event> {
    [Send] + ([GiveUp] + ([Stray(stray)] + Again()))
  }

  function Again(): seq<Event> {
    [Send] + ([Execute] + ([Diagnose] + ([Ask] + Onward())))
  }

  function Onward(): seq<Event> {
    [Settle(true)] + ([Send] + ([Execute] + []))
  }

  lemma {:induction false} OneMore(e: nat, sys: System, ev: Event, rest: seq<Event>)
    requires Enabled(e, sys, ev) && Possible(e, Next(e, sys, ev), rest)
    ensures Possible(e, sys, [ev] + rest) && End(e, sys, [ev] + rest) == End(e, Next(e, sys, ev), rest)
  {
    assert ([ev] + rest)[1..] == rest;
  }

  lemma {:induction false} OnwardLands(e: nat, s: System)
    requires s.stage.Told? && s.stage.next == s.log.NextSeqno() && s.log.owner == e > 0 && s.batch != []
    ensures Possible(e, s, Onward())
    ensures End(e, s, Onward()).log.entries == s.log.entries + BatchEntries(e, s.log.NextSeqno(), s.batch)
  {
    var s1 := Next(e, s, Settle(true));
    var s2 := Next(e, s1, Send);
    OneMore(e, s2, Execute, []);
    OneMore(e, s1, Send, [Execute] + []);
    OneMore(e, s, Settle(true), [Send] + ([Execute] + []));
  }

  /** A batch that is in the log already is sent again where the log ends. */
  lemma {:induction false} AgainRepeats(e: nat, s: System)
    requires s.stage == Ready && s.log.owner == e > 0 && s.batch != [] && 1 <= s.next <= |s.log.entries|
    ensures Possible(e, s, Again())
    ensures End(e, s, Again()).log.entries == s.log.entries + BatchEntries(e, s.log.NextSeqno(), s.batch)
  {
    var s1 := Next(e, s, Send);
    var s2 := Next(e, s1, Execute);
    assert s2 == s.(stage := Refused);
    var s3 := Next(e, s2, Diagnose);
    var s4 := Next(e, s3, Ask);
    OnwardLands(e, s4);
    OneMore(e, s3, Ask, Onward());
    OneMore(e, s2, Diagnose, [Ask] + Onward());
    OneMore(e, s1, Execute, [Diagnose] + ([Ask] + Onward()));
    OneMore(e, s, Send, [Execute] + ([Diagnose] + ([Ask] + Onward())));
  }

  /** The load writer does not write a batch exactly once: one ambiguous append and the batch is there twice. */
  lemma {:induction false} LoadWriterMayRepeat(log: A.Log, batch: seq<Bytes>)
    requires log.owner > 0 && batch != []
    ensures var e, sys, first := log.owner, Claimed(log, batch), log.NextSeqno();
            var run := Twice(Attempt(first, batch));
            && Possible(e, sys, run)
            && End(e, sys, run).log.entries
               == log.entries + BatchEntries(e, first, batch) + BatchEntries(e, first + |batch|, batch)
  {
    var e, stray := log.owner, Attempt(log.NextSeqno(), batch);
    var s := Claimed(log, batch);
    var s1 := Next(e, s, Send);
    var s2 := Next(e, s1, GiveUp);
    LateLandingRepeats(e, s2, stray);
    var rest := [Stray(stray)] + Again();
    OneMore(e, s1, GiveUp, rest);
    OneMore(e, s, Send, [GiveUp] + rest);
  }

  lemma {:induction false} LateLandingRepeats(e: nat, s: System, stray: Attempt)
    requires s.log.owner == e > 0 && stray == Attempt(s.log.NextSeqno(), s.batch) && s.batch != [] && stray in s.strays
    requires s.stage == Ready && s.next == stray.first
    ensures Possible(e, s, [Stray(stray)] + Again())
    ensures End(e, s, [Stray(stray)] + Again()).log.entries
         == s.log.entries + BatchEntries(e, s.next, s.batch) + BatchEntries(e, s.next + |s.batch|, s.batch)
  {
    AttemptLands(e, s, stray);
    AgainRepeats(e, Next(e, s, Stray(stray)));
    OneMore(e, s, Stray(stray), Again());
  }

  lemma {:induction false} AttemptLands(e: nat, s: System, stray: Attempt)
    requires s.log.owner == e > 0 && stray == Attempt(s.log.NextSeqno(), s.batch) && s.batch != [] && stray in s.strays
    ensures Next(e, s, Stray(stray)) == s.(log := s.log.(entries := s.log.entries + BatchEntries(e, stray.first, s.batch)))
  {
  }
}
