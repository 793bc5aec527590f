/**
 What a run of the load generator costs in disk (README.md lines 386-391): module
 LoadWriter's trimming arithmetic meets module Space's bound.
 */
module LoadSpace {
  import opened Words
  import opened Rules
  import opened Codec
  import opened Ring
  import opened Refinement
  import opened Space
  import A = AbstractLog
  import W = LoadWriter

  /** What a writer is configured with; stride is at least one, and retain zero would mean never trimming. */
  datatype Config = Config(epoch: nat, batch: seq<Bytes>, retain: nat, stride: nat) {
    predicate Valid() {
      epoch > 0 && batch != [] && retain > 0 && stride > 0
    }

    /** Seqnos it may append between two trims. */
    function Between(): nat {
      retain + stride + |batch|
    }
  }

  predicate Room(cfg: Config, s: State) {
    s.row.lastSeqno + 1 + |cfg.batch| <= TWO63
  }

  function Append(cfg: Config, s: State): Use
    requires Room(cfg, s)
  {
    Call(Ring.Append(cfg.epoch, s.row.lastSeqno + 1, cfg.batch))
  }

  /**
   The calls of the writer's loop, slot by slot: an append that lands and is answered
   with nil, and a trim when one is due, or an append that comes to nothing. It stops
   where the seqno column has no room left.
   */
  function Turns(cut: Cut, cfg: Config, s: State, trimmed: nat, lands: seq<bool>): seq<Use>
    decreases |lands|, 0
  {
    if lands == [] || !Room(cfg, s) then []
    else if !lands[0] then Turns(cut, cfg, s, trimmed, lands[1..])
    else [Append(cfg, s)] + Trimming(cut, cfg, UseStep(cut, s, Append(cfg, s)), trimmed, lands[1..])
  }

  /** What follows an append that landed: a trim when one is due, and the remaining slots. */
  function Trimming(cut: Cut, cfg: Config, t: State, trimmed: nat, lands: seq<bool>): seq<Use>
    decreases |lands|, 1
  {
    match W.TrimTarget(t.row.lastSeqno + 1, trimmed, cfg.retain, cfg.stride)
    case None => Turns(cut, cfg, t, trimmed, lands)
    case Some(upTo) => [Tidy(upTo)] + Turns(cut, cfg, UseStep(cut, t, Tidy(upTo)), upTo, lands)
  }

  /** Between slots: the writer owns the log and one more batch is within what may be appended before a trim. */
  predicate Steady(cfg: Config, row: Row, trimmed: nat, since: nat, d: nat) {
    && cfg.Valid() && row.epoch == cfg.epoch && cfg.Between() <= d
    && since + |cfg.batch| <= d
    && since <= row.lastSeqno - (if trimmed == 0 then 0 else trimmed + cfg.retain)
  }

  lemma {:induction false} LandedRow(cut: Cut, cfg: Config, s: State)
    requires cfg.Valid() && s.row.epoch == cfg.epoch && Room(cfg, s)
    ensures UseStep(cut, s, Append(cfg, s)).row == s.row.(lastSeqno := s.row.lastSeqno + |cfg.batch|)
  {
  }

  lemma {:induction false} TrimmedBehind(cut: Cut, t: State, upTo: nat)
    requires 0 < upTo <= t.row.lastSeqno < TWO63
    ensures var row := UseStep(cut, t, Tidy(upTo)).row;
            row.epoch == t.row.epoch && row.lastSeqno == t.row.lastSeqno && row.trimUpto >= upTo
  {
    ReclaimedRow(cut, Step(cut, t, Trim(upTo)));
  }

  lemma {:induction false} FrugalFirst(cut: Cut, s: State, use: Use, rest: seq<Use>, d: nat, r: nat, since: nat)
    requires Proper(use) && 0 <= Since(cut, s, use, since) <= d
    requires var t := UseStep(cut, s, use); use.Tidy? ==> t.row.lastSeqno - t.row.trimUpto <= r
    requires Frugal(cut, UseStep(cut, s, use), rest, d, r, Since(cut, s, use, since))
    ensures Frugal(cut, s, [use] + rest, d, r, since)
  {
    assert ([use] + rest)[1..] == rest;
  }

  lemma {:induction false} TidyFirst(cut: Cut, t: State, upTo: nat, rest: seq<Use>, d: nat, r: nat, since: nat)
    requires 0 < upTo <= t.row.lastSeqno < TWO63 && t.row.lastSeqno - upTo <= r
    requires Frugal(cut, UseStep(cut, t, Tidy(upTo)), rest, d, r, 0)
    ensures Frugal(cut, t, [Tidy(upTo)] + rest, d, r, since)
  {
    TrimmedBehind(cut, t, upTo);
    FrugalFirst(cut, t, Tidy(upTo), rest, d, r, since);
  }

  lemma {:induction false} AppendFirst(cut: Cut, cfg: Config, s: State, rest: seq<Use>, d: nat, r: nat, since: nat)
    requires cfg.Valid() && s.row.epoch == cfg.epoch && Room(cfg, s) && since + |cfg.batch| <= d
    requires Frugal(cut, UseStep(cut, s, Append(cfg, s)), rest, d, r, since + |cfg.batch|)
    ensures Frugal(cut, s, [Append(cfg, s)] + rest, d, r, since)
  {
    LandedRow(cut, cfg, s);
    FrugalFirst(cut, s, Append(cfg, s), rest, d, r, since);
  }

  /** After an append: either no trim is due and there is room for another, or the one that is leaves what is retained. */
  lemma {:induction false} AfterAppend(cfg: Config, row: Row, trimmed: nat, since: nat, d: nat)
    requires Steady(cfg, row, trimmed, since, d)
    ensures var grown := row.(lastSeqno := row.lastSeqno + |cfg.batch|);
            var target := W.TrimTarget(grown.lastSeqno + 1, trimmed, cfg.retain, cfg.stride);
            && (target.None? ==> Steady(cfg, grown, trimmed, since + |cfg.batch|, d))
            && (target.Some? ==> 0 < target.value && target.value + cfg.retain == grown.lastSeqno)
  {
  }

  /** The writer keeps the bargain. */
  lemma {:induction false} TurnsAreFrugal(cut: Cut, cfg: Config, s: State, trimmed: nat, since: nat, d: nat, r: nat, lands: seq<bool>)
    requires Steady(cfg, s.row, trimmed, since, d) && cfg.retain <= r
    ensures Frugal(cut, s, Turns(cut, cfg, s, trimmed, lands), d, r, since)
    decreases |lands|, 0, 0
  {
    if lands != [] && Room(cfg, s) {
      if lands[0] {
        var t := UseStep(cut, s, Append(cfg, s));
        LandedRow(cut, cfg, s);
        TrimmingIsFrugal(cut, cfg, s.row, t, trimmed, since, d, r, lands[1..]);
        AppendFirst(cut, cfg, s, Trimming(cut, cfg, t, trimmed, lands[1..]), d, r, since);
      } else {
        TurnsAreFrugal(cut, cfg, s, trimmed, since, d, r, lands[1..]);
      }
    }
  }

  lemma {:induction false} TrimmingIsFrugal(cut: Cut, cfg: Config, row: Row, t: State, trimmed: nat, since: nat, d: nat, r: nat,
                                            lands: seq<bool>)
    requires Steady(cfg, row, trimmed, since, d) && cfg.retain <= r
    requires t.row == row.(lastSeqno := row.lastSeqno + |cfg.batch|) && t.row.lastSeqno < TWO63
    ensures Frugal(cut, t, Trimming(cut, cfg, t, trimmed, lands), d, r, since + |cfg.batch|)
    decreases |lands|, 1, 0
  {
    AfterAppend(cfg, row, trimmed, since, d);
    match W.TrimTarget(t.row.lastSeqno + 1, trimmed, cfg.retain, cfg.stride)
    case None => UntrimmedIsFrugal(cut, cfg, t, trimmed, since + |cfg.batch|, d, r, lands);
    case Some(upTo) => TidyingIsFrugal(cut, cfg, t, trimmed, upTo, since + |cfg.batch|, d, r, lands);
  }

  lemma {:induction false} UntrimmedIsFrugal(cut: Cut, cfg: Config, t: State, trimmed: nat, since: nat, d: nat, r: nat, lands: seq<bool>)
    requires Steady(cfg, t.row, trimmed, since, d) && cfg.retain <= r
    requires W.TrimTarget(t.row.lastSeqno + 1, trimmed, cfg.retain, cfg.stride) == None
    ensures Frugal(cut, t, Trimming(cut, cfg, t, trimmed, lands), d, r, since)
    decreases |lands|, 0, 1
  {
    TurnsAreFrugal(cut, cfg, t, trimmed, since, d, r, lands);
    assert Trimming(cut, cfg, t, trimmed, lands) == Turns(cut, cfg, t, trimmed, lands);
  }

  lemma {:induction false} TidyingIsFrugal(cut: Cut, cfg: Config, t: State, trimmed: nat, upTo: nat, since: nat, d: nat, r: nat,
                                           lands: seq<bool>)
    requires cfg.Valid() && t.row.epoch == cfg.epoch && cfg.retain <= r && cfg.Between() <= d
    requires W.TrimTarget(t.row.lastSeqno + 1, trimmed, cfg.retain, cfg.stride) == Some(upTo)
    requires 0 < upTo && upTo + cfg.retain == t.row.lastSeqno < TWO63
    ensures Frugal(cut, t, Trimming(cut, cfg, t, trimmed, lands), d, r, since)
    decreases |lands|, 0, 1
  {
    var v := UseStep(cut, t, Tidy(upTo));
    TrimmedBehind(cut, t, upTo);
    TurnsAreFrugal(cut, cfg, v, upTo, 0, d, r, lands);
    TidyFirst(cut, t, upTo, Turns(cut, cfg, v, upTo, lands), d, r, since);
    assert Trimming(cut, cfg, t, trimmed, lands) == [Tidy(upTo)] + Turns(cut, cfg, v, upTo, lands);
  }

  // ---------- and the writer does trim behind itself ----------

  function Landed(lands: seq<bool>): nat {
    if lands == [] then 0 else Landed(lands[1..]) + if lands[0] then 1 else 0
  }

  /** The writer has trimmed to within what it retains and one stride. */
  predicate KeepsUp(cfg: Config, row: Row) {
    row.lastSeqno < row.trimUpto + cfg.retain + cfg.stride
  }

  lemma {:induction false} SlotKeepsUp(cut: Cut, cfg: Config, t: State, trimmed: nat, lands: seq<bool>)
    requires cfg.Valid() && t.row.epoch == cfg.epoch && trimmed <= t.row.trimUpto && t.row.lastSeqno < TWO63
    requires t.row.lastSeqno + |cfg.batch| * Landed(lands) < TWO63
    ensures var end := UseRun(cut, t, Trimming(cut, cfg, t, trimmed, lands)).row;
            KeepsUp(cfg, end) && end.lastSeqno == t.row.lastSeqno + |cfg.batch| * Landed(lands)
    decreases |lands|, 1
  {
    match W.TrimTarget(t.row.lastSeqno + 1, trimmed, cfg.retain, cfg.stride)
    case None =>
      TurnsKeepUp(cut, cfg, t, trimmed, lands);
      assert Trimming(cut, cfg, t, trimmed, lands) == Turns(cut, cfg, t, trimmed, lands);
    case Some(upTo) =>
      var v := UseStep(cut, t, Tidy(upTo));
      TrimmedBehind(cut, t, upTo);
      TurnsKeepUp(cut, cfg, v, upTo, lands);
      assert Trimming(cut, cfg, t, trimmed, lands) == [Tidy(upTo)] + Turns(cut, cfg, v, upTo, lands);
      FirstUse(cut, t, Tidy(upTo), Turns(cut, cfg, v, upTo, lands));
  }

  lemma {:induction false} FirstUse(cut: Cut, s: State, use: Use, rest: seq<Use>)
    ensures UseRun(cut, s, [use] + rest) == UseRun(cut, UseStep(cut, s, use), rest)
  {
    assert ([use] + rest)[1..] == rest;
  }

  /** Every append that comes to something is there, and once there is one the writer keeps up. */
  lemma {:induction false} TurnsKeepUp(cut: Cut, cfg: Config, s: State, trimmed: nat, lands: seq<bool>)
    requires cfg.Valid() && s.row.epoch == cfg.epoch && trimmed <= s.row.trimUpto
    requires s.row.lastSeqno + |cfg.batch| * Landed(lands) < TWO63
    ensures var end := UseRun(cut, s, Turns(cut, cfg, s, trimmed, lands)).row;
            && end.lastSeqno == s.row.lastSeqno + |cfg.batch| * Landed(lands)
            && (KeepsUp(cfg, s.row) || Landed(lands) > 0 ==> KeepsUp(cfg, end))
    decreases |lands|, 0
  {
    if lands != [] {
      LandedFirst(cfg, lands);
      if lands[0] {
        var t := UseStep(cut, s, Append(cfg, s));
        LandedRow(cut, cfg, s);
        SlotKeepsUp(cut, cfg, t, trimmed, lands[1..]);
        FirstUse(cut, s, Append(cfg, s), Trimming(cut, cfg, t, trimmed, lands[1..]));
        assert Turns(cut, cfg, s, trimmed, lands) == [Append(cfg, s)] + Trimming(cut, cfg, t, trimmed, lands[1..]);
      } else {
        TurnsKeepUp(cut, cfg, s, trimmed, lands[1..]);
        assert Room(cfg, s) ==> Turns(cut, cfg, s, trimmed, lands) == Turns(cut, cfg, s, trimmed, lands[1..]);
      }
    }
  }

  lemma {:induction false} LandedFirst(cfg: Config, lands: seq<bool>)
    requires lands != []
    ensures |cfg.batch| * Landed(lands) == |cfg.batch| * Landed(lands[1..]) + if lands[0] then |cfg.batch| else 0
  {
  }

  /** Nothing was appended since the last trim that was not appended at all. */
  lemma {:induction false} SinceAtMostAll(cut: Cut, s: State, uses: seq<Use>, since: nat)
    requires since <= s.row.lastSeqno
    ensures SinceRun(cut, s, uses, since) <= UseRun(cut, s, uses).row.lastSeqno
    decreases |uses|
  {
    if uses != [] {
      SinceAtMostAll(cut, UseStep(cut, s, uses[0]), uses[1..], Max(0, Since(cut, s, uses[0], since)));
    }
  }

  /** Everything a writer does to a log it takes over: the claim, and the slots of its run. */
  function Load(cut: Cut, cfg: Config, s: State, lands: seq<bool>): seq<Use> {
    [Call(Fence(cfg.epoch))] + Turns(cut, cfg, UseStep(cut, s, Call(Fence(cfg.epoch))), 0, lands)
  }

  /**
   However long it runs and whichever of its appends fail, a writer that trims behind
   itself keeps a log to the bound of module Space, whether the log is new or one that
   some other careful caller, or an earlier run, has left to it.
   */
  lemma {:induction false} LoadIsBounded(cut: Cut, cfg: Config, prior: seq<Use>, d: nat, r: nat, lands: seq<bool>)
    requires Tagged(cut) && cfg.Valid() && Frugal(cut, CREATED, prior, d, r, 0)
    requires Admits(UseRun(cut, CREATED, prior).row, Fence(cfg.epoch))
    requires cfg.retain <= r && cfg.Between() <= d && SinceRun(cut, CREATED, prior, 0) + |cfg.batch| <= d
    ensures var s := UseRun(cut, CREATED, prior); |SeqnosIn(UseRun(cut, s, Load(cut, cfg, s, lands)))| <= Bound(d, r)
  {
    var s, since := UseRun(cut, CREATED, prior), SinceRun(cut, CREATED, prior, 0);
    var a, prevLo := ToldUses(A.EMPTY, prior), PrevLoUses(cut, CREATED, prior, 1);
    FrugalKeepsWithin(cut, CREATED, A.EMPTY, 1, prior, d, r, 0);
    SinceAtMostAll(cut, CREATED, prior, 0);
    LoadIsFrugal(cut, cfg, s, since, d, r, lands);
    LoadStaysWithin(cut, s, a, prevLo, Load(cut, cfg, s, lands), d, r, since);
  }

  lemma {:induction false} LoadIsFrugal(cut: Cut, cfg: Config, s: State, since: nat, d: nat, r: nat, lands: seq<bool>)
    requires cfg.Valid() && Admits(s.row, Fence(cfg.epoch)) && since <= s.row.lastSeqno
    requires cfg.retain <= r && cfg.Between() <= d && since + |cfg.batch| <= d
    ensures Frugal(cut, s, Load(cut, cfg, s, lands), d, r, since)
  {
    var claim := Call(Fence(cfg.epoch));
    var t := UseStep(cut, s, claim);
    TurnsAreFrugal(cut, cfg, t, 0, since, d, r, lands);
    FrugalFirst(cut, s, claim, Turns(cut, cfg, t, 0, lands), d, r, since);
  }

  lemma {:induction false} LoadStaysWithin(cut: Cut, s: State, a: A.Log, prevLo: nat, load: seq<Use>, d: nat, r: nat, since: nat)
    requires Tagged(cut) && Refines(cut, s, a, prevLo) && Within(s.row, prevLo, d, r, since)
    requires Frugal(cut, s, load, d, r, since)
    ensures |SeqnosIn(UseRun(cut, s, load))| <= Bound(d, r)
  {
    FrugalKeepsWithin(cut, s, a, prevLo, load, d, r, since);
    WithinIsBounded(cut, UseRun(cut, s, load), ToldUses(a, load), PrevLoUses(cut, s, load, prevLo), d, r,
                    SinceRun(cut, s, load, since));
  }

  /**
   And it does append and trim: every append that comes to something is in the log, and
   from the first on there is never more above the watermark than the writer retains
   and less than one stride.
   */
  lemma {:induction false} LoadKeepsUp(cut: Cut, cfg: Config, s: State, lands: seq<bool>)
    requires cfg.Valid() && Admits(s.row, Fence(cfg.epoch)) && s.row.lastSeqno + |cfg.batch| * Landed(lands) < TWO63
    ensures var end := UseRun(cut, s, Load(cut, cfg, s, lands)).row;
            && end.lastSeqno == s.row.lastSeqno + |cfg.batch| * Landed(lands)
            && (Landed(lands) > 0 ==> end.lastSeqno < end.trimUpto + cfg.retain + cfg.stride)
  {
    var t := UseStep(cut, s, Call(Fence(cfg.epoch)));
    TurnsKeepUp(cut, cfg, t, 0, lands);
    FirstUse(cut, s, Call(Fence(cfg.epoch)), Turns(cut, cfg, t, 0, lands));
  }
}
