/**
 What a log is to its callers: an owner, every entry ever appended, and a
 watermark below which entries are trimmed. Nothing here knows of rows, tables
 or space; the layers below refine this one.
 */
module AbstractLog {
  import opened Words
  import opened Rules
  import opened Codec

  /** `entries[i]` is the entry at seqno i + 1, trimmed or not. */
  datatype Log = Log(owner: nat, entries: seq<Entry>, trimmed: nat) {

    predicate Valid() {
      && trimmed <= |entries|
      && Numbered(entries)
      && (forall i :: 0 <= i < |entries| ==> 0 < entries[i].epoch <= owner)
      && (forall i, j :: 0 <= i < j < |entries| ==> entries[i].epoch <= entries[j].epoch)
    }

    function Found(): AppendState {
      AppendState(owner, |entries|)
    }

    function NextSeqno(): nat {
      |entries| + 1
    }
  }

  datatype Call =
    | Fence(epoch: nat)
    | Append(epoch: nat, first: nat, payloads: seq<Bytes>)
    | Trim(upTo: nat)
    | Idle

  const EMPTY := Log(0, [], 0)

  predicate Numbered(entries: seq<Entry>) {
    forall i :: 0 <= i < |entries| ==> entries[i].seqno == i + 1
  }

  predicate Admits(a: Log, call: Call) {
    match call
    case Fence(e) => e > 0 && FenceMatches(a.owner, e)
    case Append(e, first, payloads) =>
      && e > 0 && first >= FIRST_SEQNO && payloads != []
      && UpdateMatches(e, first, a.Found())
    case Trim(upTo) => CheckTrim(upTo)
    case Idle => true
  }

  function Step(a: Log, call: Call): Log {
    if !Admits(a, call) then a else
      match call
      case Fence(e) => a.(owner := e)
      case Append(e, first, payloads) => a.(entries := a.entries + BatchEntries(e, first, payloads))
      case Trim(upTo) => a.(trimmed := Max(a.trimmed, Min(TrimReach(upTo), |a.entries|)))
      case Idle => a
  }

  function Run(a: Log, calls: seq<Call>): Log
    decreases |calls|
  {
    if calls == [] then a else Run(Step(a, calls[0]), calls[1..])
  }

  lemma {:induction false} StepKeepsValid(a: Log, call: Call)
    requires a.Valid()
    ensures Step(a, call).Valid()
  {
  }

  /** One call only ever adds: no entry, no ownership and no trim is taken back. */
  ghost predicate Extends(a: Log, b: Log) {
    a.owner <= b.owner && a.entries <= b.entries && a.trimmed <= b.trimmed
  }

  /** Epochs never fall along a log and never exceed its owner; nothing is ever taken back. */
  lemma {:induction false} RunKeepsValid(a: Log, calls: seq<Call>)
    requires a.Valid()
    ensures Run(a, calls).Valid() && Extends(a, Run(a, calls))
    decreases |calls|
  {
    if calls != [] {
      StepKeepsValid(a, calls[0]);
      RunKeepsValid(Step(a, calls[0]), calls[1..]);
    }
  }

  lemma {:induction false} RunConcat(a: Log, c1: seq<Call>, c2: seq<Call>)
    ensures Run(a, c1 + c2) == Run(Run(a, c1), c2)
    decreases |c1|
  {
    if c1 == [] {
      assert c1 + c2 == c2;
    } else {
      assert (c1 + c2)[1..] == c1[1..] + c2;
      RunConcat(Step(a, c1[0]), c1[1..], c2);
    }
  }

  // ---------- trimming ----------

  /** Whether some call trims to seqno `n` or above, short of 2^63, while the log reaches up to it. */
  predicate TrimsTo(a: Log, calls: seq<Call>, n: nat)
    decreases |calls|
  {
    calls != [] &&
    ((calls[0].Trim? && n <= calls[0].upTo < TWO63 && n <= |a.entries|) || TrimsTo(Step(a, calls[0]), calls[1..], n))
  }

  /**
   A seqno is below the watermark exactly when a trim at or above it was made after its
   entry was appended: trims repeat and fall behind harmlessly, and one that reaches
   beyond the log's end hides nothing that is appended later.
   */
  lemma {:induction false} TrimmedIff(a: Log, calls: seq<Call>, n: nat)
    requires n >= 1
    ensures n <= Run(a, calls).trimmed <==> n <= a.trimmed || TrimsTo(a, calls, n)
    decreases |calls|
  {
    if calls != [] {
      TrimmedIff(Step(a, calls[0]), calls[1..], n);
    }
  }

  // ---------- fencing ----------

  /** The calls of a run without the appends of epochs below `e`. */
  function WithoutLower(calls: seq<Call>, e: nat): seq<Call> {
    if calls == [] then []
    else if calls[0].Append? && calls[0].epoch < e then WithoutLower(calls[1..], e)
    else [calls[0]] + WithoutLower(calls[1..], e)
  }

  /**
   Fencing. Once a fence at `e` has taken effect, whatever calls follow in whatever
   order, the log is what it would be had none of the appends of lower epochs been
   made.
   */
  lemma {:induction false} FenceCutsOff(a: Log, e: nat, calls: seq<Call>)
    requires Admits(a, Fence(e))
    ensures Run(Step(a, Fence(e)), calls) == Run(Step(a, Fence(e)), WithoutLower(calls, e))
  {
    OwnedRunIgnoresLower(Step(a, Fence(e)), e, calls);
  }

  lemma {:induction false} OwnedRunIgnoresLower(a: Log, e: nat, calls: seq<Call>)
    requires a.owner >= e
    ensures Run(a, calls) == Run(a, WithoutLower(calls, e))
    decreases |calls|
  {
    if calls != [] {
      OwnedRunIgnoresLower(Step(a, calls[0]), e, calls[1..]);
    }
  }

  // ---------- handover ----------

  /** Whether some fence of a higher epoch is among the calls, other than at one too large to be admitted. */
  predicate FencesAbove(calls: seq<Call>, e: nat) {
    calls != [] && ((calls[0].Fence? && e < calls[0].epoch < TWO63) || FencesAbove(calls[1..], e))
  }

  /** Whether some append of epoch `e` takes effect in the run. */
  predicate AppendsAt(a: Log, calls: seq<Call>, e: nat)
    decreases |calls|
  {
    calls != [] &&
    ((calls[0].Append? && calls[0].epoch == e && Admits(a, calls[0])) || AppendsAt(Step(a, calls[0]), calls[1..], e))
  }

  lemma {:induction false} OwnerFollowsFences(a: Log, calls: seq<Call>, e: nat)
    requires a.owner == e > 0
    ensures Run(a, calls).owner == e <==> !FencesAbove(calls, e)
    ensures Run(a, calls).owner >= e
    decreases |calls|
  {
    if calls != [] {
      var b, rest := Step(a, calls[0]), calls[1..];
      if b.owner == e {
        OwnerFollowsFences(b, rest, e);
      } else {
        OwnerNeverFalls(b, rest);
      }
    }
  }

  lemma {:induction false} OwnerNeverFalls(a: Log, calls: seq<Call>)
    ensures a.owner <= Run(a, calls).owner
    ensures |a.entries| <= |Run(a, calls).entries|
    decreases |calls|
  {
    if calls != [] {
      OwnerNeverFalls(Step(a, calls[0]), calls[1..]);
    }
  }

  lemma {:induction false} EndFollowsAppends(a: Log, calls: seq<Call>, e: nat)
    requires a.owner == e > 0 && !FencesAbove(calls, e)
    ensures |Run(a, calls).entries| == |a.entries| <==> !AppendsAt(a, calls, e)
    decreases |calls|
  {
    if calls != [] {
      var b, rest := Step(a, calls[0]), calls[1..];
      EndFollowsAppends(b, rest, e);
      OwnerNeverFalls(b, rest);
    }
  }

  /**
   Handover. A writer fences at `e`, other calls run, it asks for the next seqno,
   more calls run, and it appends there. The append is admitted exactly when no
   higher epoch has fenced since its fence and no append of its own epoch has
   taken effect since it asked — whatever has been trimmed meanwhile.
   */
  lemma {:induction false} Handover(a: Log, e: nat, before: seq<Call>, after: seq<Call>, payloads: seq<Bytes>)
    requires Admits(a, Fence(e)) && payloads != []
    ensures var asked := Run(Step(a, Fence(e)), before);
            Admits(Run(asked, after), Append(e, asked.NextSeqno(), payloads))
            <==> !FencesAbove(before, e) && !FencesAbove(after, e) && !AppendsAt(asked, after, e)
  {
    var fenced := Step(a, Fence(e));
    var asked := Run(fenced, before);
    OwnerFollowsFences(fenced, before, e);
    if FencesAbove(before, e) {
      OwnerNeverFalls(asked, after);
    } else {
      OwnerFollowsFences(asked, after, e);
      if !FencesAbove(after, e) {
        EndFollowsAppends(asked, after, e);
      }
    }
  }
}
