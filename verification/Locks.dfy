/**
 The operations taken apart into the phases in which other sessions can come
 between: table locks one at a time, the statement's snapshot, the wait for the
 row and the re-evaluation of the WHERE clause after it (READ COMMITTED, section
 13.2.1 of the PostgreSQL manual), the steps of reclaim's transaction, and a
 commit or a rollback at the end.

 Every interleaving of any number of sessions has the effect, on the committed
 row and tables, of the committed operations run one at a time in commit order.
 */
module Locks {
  import opened Words
  import opened Rules
  import opened Codec
  import opened LockTable
  import Ring
  import Refinement
  import A = AbstractLog

  type Op = Ring.Op
  type Row = Ring.Row

  /** Where a session is. `now` is the row version it locked; nothing it does is visible before its commit. */
  datatype Phase =
    | Appending(op: Op, got: nat)
    | AppendWaiting(op: Op)
    | AppendHolding(op: Op, now: Row)
    | UpdateWaiting(op: Op)
    | UpdateHolding(op: Op, now: Row)
    | ReclaimLocking(gate: Row, got: nat)
    | ReclaimWaiting(gate: Row)
    | ReclaimHolding(gate: Row, now: Row, tx: Row, emptied: bool, stage: nat)
    | Reading(got: nat)

  /** The committed database and the sessions under way. */
  datatype Server = Server(db: Ring.State, sessions: map<Session, Phase>)

  datatype Act = Begin(op: Op) | BeginRead | LockTable | Snapshot | LockRow | Work | Commit | Rollback

  /** Whether the gate saw a half to empty: the record that reclaim locked the tables. */
  predicate WantsTruncate(gate: Row) {
    gate.ReclaimSteps(true).0
  }

  function ClaimOf(p: Phase): Claim {
    match p
    case Appending(_, got) => Claim(APPEND, got)
    case AppendWaiting(_) => Claim(APPEND, 2)
    case AppendHolding(_, _) => Claim(APPEND, 3)
    case UpdateWaiting(_) => Claim(ROW_ONLY, 0)
    case UpdateHolding(_, _) => Claim(ROW_ONLY, 1)
    case ReclaimLocking(_, got) => Claim(RECLAIM, got)
    case ReclaimWaiting(gate) => if WantsTruncate(gate) then Claim(RECLAIM, 2) else Claim(ROW_ONLY, 0)
    case ReclaimHolding(gate, _, _, _, _) => if WantsTruncate(gate) then Claim(RECLAIM, 3) else Claim(ROW_ONLY, 1)
    case Reading(got) => Claim(READ, got)
  }

  function ClaimsOf(sessions: map<Session, Phase>): Claims {
    map c | c in sessions :: ClaimOf(sessions[c])
  }

  /** The operation a session is carrying out. */
  function OpOf(p: Phase): Op {
    match p
    case Appending(op, _) => op
    case AppendWaiting(op) => op
    case AppendHolding(op, _) => op
    case UpdateWaiting(op) => op
    case UpdateHolding(op, _) => op
    case ReclaimLocking(gate, _) => Ring.Reclaim(gate)
    case ReclaimWaiting(gate) => Ring.Reclaim(gate)
    case ReclaimHolding(gate, _, _, _, _) => Ring.Reclaim(gate)
    case Reading(_) => Ring.Trim(0)
  }

  predicate HasRow(p: Phase) {
    p.AppendHolding? || p.UpdateHolding? || p.ReclaimHolding?
  }

  // ---------- the steps ----------

  /** The checks made before anything is sent. */
  predicate Sendable(op: Op) {
    match op
    case Fence(e) => e > 0
    case Append(e, first, payloads) => CheckAppend(e, first, |payloads|).Admitted?
    case Trim(upTo) => CheckTrim(upTo)
    case Reclaim(gate) => var (t, r) := gate.ReclaimSteps(true); t || r
  }

  function FirstPhase(op: Op): Phase {
    match op
    case Append(_, _, _) => Appending(op, 0)
    case Reclaim(gate) => if WantsTruncate(gate) then ReclaimLocking(gate, 0) else ReclaimWaiting(gate)
    case _ => UpdateWaiting(op)
  }

  ghost predicate Enabled(ls: Server, c: Session, act: Act) {
    match act
    case Begin(op) => c !in ls.sessions && Sendable(op)
    case BeginRead => c !in ls.sessions
    case LockTable =>
      && c in ls.sessions && Grantable(ClaimsOf(ls.sessions), c)
      && var p := ls.sessions[c]; (p.Appending? || p.ReclaimLocking? || p.Reading?) && p.got < 2
    case Snapshot =>
      && c in ls.sessions
      && var p := ls.sessions[c]; (p.Appending? && p.got == 2) || p.UpdateWaiting?
    case LockRow =>
      && c in ls.sessions && Grantable(ClaimsOf(ls.sessions), c)
      && var p := ls.sessions[c]; p.AppendWaiting? || p.UpdateWaiting? || p.ReclaimWaiting?
    case Work => c in ls.sessions && ls.sessions[c].ReclaimHolding? && ls.sessions[c].stage < 3
    case Commit =>
      && c in ls.sessions && HasRow(ls.sessions[c])
      && (ls.sessions[c].ReclaimHolding? ==> ls.sessions[c].stage == 3)
    case Rollback => c in ls.sessions
  }

  /** The session's next phase, or its end: a statement whose WHERE does not match writes nothing. */
  function NextPhase(db: Ring.State, p: Phase, act: Act): Option<Phase>
    requires act.LockTable? || act.Snapshot? || act.LockRow? || act.Work?
  {
    match (act, p)
    case (LockTable, Appending(op, got)) => Some(Appending(op, got + 1))
    case (LockTable, ReclaimLocking(gate, got)) => if got == 0 then Some(ReclaimLocking(gate, 1)) else Some(ReclaimWaiting(gate))
    case (LockTable, Reading(got)) => Some(Reading(got + 1))
    case (Snapshot, Appending(op, _)) => if Ring.Admits(db.row, op) then Some(AppendWaiting(op)) else None
    case (Snapshot, UpdateWaiting(op)) => if Ring.Admits(db.row, op) then Some(p) else None
    case (LockRow, AppendWaiting(op)) => if Ring.Admits(db.row, op) then Some(AppendHolding(op, db.row)) else None
    case (LockRow, UpdateWaiting(op)) => if Ring.Admits(db.row, op) then Some(UpdateHolding(op, db.row)) else None
    case (LockRow, ReclaimWaiting(gate)) => Some(ReclaimHolding(gate, db.row, db.row, false, 0))
    case (Work, ReclaimHolding(gate, now, tx, emptied, stage)) => Some(Worked(gate, now, tx, emptied, stage))
    case _ => Some(p)
  }

  /** Reclaim's statements under the row lock: TRUNCATE, clear prev_hi, rotate. */
  function Worked(gate: Row, now: Row, tx: Row, emptied: bool, stage: nat): Phase {
    var (truncate, rotate) := now.ReclaimSteps(WantsTruncate(gate));
    if stage == 0 then ReclaimHolding(gate, now, tx, truncate, 1)
    else if stage == 1 then ReclaimHolding(gate, now, if truncate then tx.Cleared() else tx, emptied, 2)
    else ReclaimHolding(gate, now, if rotate then tx.Rotated() else tx, emptied, 3)
  }

  /** What a commit makes visible: the session's own row version and table changes. */
  function Committed(cut: Ring.Cut, db: Ring.State, p: Phase): Ring.State
    requires HasRow(p)
  {
    match p
    case AppendHolding(op, now) =>
      if !op.Append? || !Sendable(op) then db else
        db.With(now.curSlot, db.At(now.curSlot) + Ring.BatchRows(cut, op.epoch, op.first, op.payloads))
        .(row := now.(lastSeqno := op.first + |op.payloads| - 1))
    case UpdateHolding(op, now) =>
      (match op
       case Fence(e) => db.(row := now.(epoch := e))
       case Trim(upTo) => db.(row := now.(trimUpto := Max(now.trimUpto, Min(TrimReach(upTo), now.lastSeqno))))
       case _ => db)
    case ReclaimHolding(_, now, tx, emptied, _) =>
      (if emptied then db.With(now.PrevSlot(), multiset{}) else db).(row := tx)
  }

  ghost function Next(cut: Ring.Cut, ls: Server, c: Session, act: Act): Server
    requires Enabled(ls, c, act)
  {
    match act
    case Begin(op) => ls.(sessions := ls.sessions[c := FirstPhase(op)])
    case BeginRead => ls.(sessions := ls.sessions[c := Reading(0)])
    case Commit => Server(Committed(cut, ls.db, ls.sessions[c]), ls.sessions - {c})
    case Rollback => ls.(sessions := ls.sessions - {c})
    case _ =>
      (match NextPhase(ls.db, ls.sessions[c], act)
       case Some(p) => ls.(sessions := ls.sessions[c := p])
       case None => ls.(sessions := ls.sessions - {c}))
  }

  // ---------- what every step keeps ----------

  /** A session that has the row has its current version; reclaim's own version follows from it. */
  predicate PhaseFits(row: Row, p: Phase) {
    match p
    case Appending(op, got) => op.Append? && got <= 2
    case AppendWaiting(op) => op.Append?
    case AppendHolding(op, now) => op.Append? && now == row && Ring.Admits(row, op)
    case UpdateWaiting(op) => op.Fence? || op.Trim?
    case UpdateHolding(op, now) => (op.Fence? || op.Trim?) && now == row && Ring.Admits(row, op)
    case ReclaimLocking(gate, got) => got < 2 && WantsTruncate(gate)
    case ReclaimWaiting(gate) => Sendable(Ring.Reclaim(gate))
    case ReclaimHolding(gate, now, tx, emptied, stage) =>
      var (truncate, rotate) := now.ReclaimSteps(WantsTruncate(gate));
      var cleared := if truncate then now.Cleared() else now;
      && Sendable(Ring.Reclaim(gate)) && now == row && stage <= 3
      && emptied == (truncate && stage >= 1)
      && tx == (if stage < 2 then now else if stage == 3 && rotate then cleared.Rotated() else cleared)
    case Reading(got) => got <= 2
  }

  ghost predicate Inv(ls: Server) {
    && (forall c :: c in ls.sessions ==> PhaseFits(ls.db.row, ls.sessions[c]))
    && Compatible(ClaimsOf(ls.sessions))
  }

  lemma {:induction false} ClaimsAreValid(row: Row, sessions: map<Session, Phase>)
    requires forall c :: c in sessions ==> PhaseFits(row, sessions[c])
    ensures AllDisciplined(ClaimsOf(sessions))
  {
    forall c | c in sessions
      ensures ClaimOf(sessions[c]).Valid() && Disciplined(ClaimOf(sessions[c]).program)
    {
      OwnProgramsAreDisciplined(ClaimOf(sessions[c]).program);
    }
  }

  /** What a session in a given phase bars the others from. */
  lemma {:induction false} PhaseBars(row: Row, p: Phase)
    requires PhaseFits(row, p)
    ensures HasRow(p) ==> ClaimOf(p).Bars(Request(RegistryRow, Update))
    ensures (p.AppendHolding? || p.AppendWaiting? || ((p.Appending? || p.Reading?) && p.got > 0)) ==>
              ClaimOf(p).Bars(Request(EntryTable(0), AccessExclusive))
  {
    var claim := ClaimOf(p);
    if HasRow(p) {
      assert claim.program[claim.got - 1] == Request(RegistryRow, Update);
    }
    if claim.program == APPEND && claim.got > 0 {
      assert claim.program[0] == Request(EntryTable(0), RowExclusive);
    }
    if claim.program == READ && claim.got > 0 {
      assert claim.program[0] == Request(EntryTable(0), AccessShare);
    }
  }

  /** The row lock is exclusive. */
  lemma {:induction false} OneHasRow(ls: Server, c: Session, d: Session)
    requires Inv(ls) && c in ls.sessions && d in ls.sessions && c != d
    requires HasRow(ls.sessions[c])
    ensures !HasRow(ls.sessions[d])
  {
    var cs := ClaimsOf(ls.sessions);
    var k := cs[c].got - 1;
    assert cs[c].program[k] == Request(RegistryRow, Update);
    assert !cs[d].Bars(cs[c].program[k]);
    PhaseBars(ls.db.row, ls.sessions[d]);
  }

  /** Reclaim holds both tables from before its TRUNCATE to its end: no append is in flight meanwhile, and no row query. */
  lemma {:induction false} NoTruncateOverlapsAppend(ls: Server, c: Session, d: Session)
    requires Inv(ls) && c in ls.sessions && d in ls.sessions && c != d
    requires ls.sessions[c].ReclaimHolding? && ls.sessions[c].emptied
    ensures var p := ls.sessions[d];
            !p.AppendHolding? && !p.AppendWaiting? && (p.Appending? || p.Reading? ==> p.got == 0)
  {
    var cs := ClaimsOf(ls.sessions);
    assert cs[c].program[0] == Request(EntryTable(0), AccessExclusive);
    assert !cs[d].Bars(cs[c].program[0]);
    PhaseBars(ls.db.row, ls.sessions[d]);
  }

  // ---------- locks along a step ----------

  lemma {:induction false} GrantedPhase(ls: Server, c: Session, p: Phase)
    requires Inv(ls) && c in ls.sessions && Grantable(ClaimsOf(ls.sessions), c)
    requires var was := ClaimOf(ls.sessions[c]); ClaimOf(p) == was.(got := was.got + 1)
    ensures Compatible(ClaimsOf(ls.sessions[c := p]))
  {
    var cs := ClaimsOf(ls.sessions);
    assert AllValid(cs) by {
      ClaimsAreValid(ls.db.row, ls.sessions);
    }
    GrantKeepsCompatible(cs, c);
    assert ClaimsOf(ls.sessions[c := p]) == cs[c := cs[c].(got := cs[c].got + 1)];
  }

  lemma {:induction false} SamePhaseLocks(ls: Server, c: Session, p: Phase)
    requires Inv(ls) && c in ls.sessions && ClaimOf(p) == ClaimOf(ls.sessions[c])
    ensures Compatible(ClaimsOf(ls.sessions[c := p]))
  {
    assert ClaimsOf(ls.sessions[c := p]) == ClaimsOf(ls.sessions);
  }

  lemma {:induction false} NewOrGone(ls: Server, c: Session, p: Phase)
    requires Inv(ls) && ClaimOf(p).got == 0
    ensures Compatible(ClaimsOf(ls.sessions[c := p])) && Compatible(ClaimsOf(ls.sessions - {c}))
  {
    var cs := ClaimsOf(ls.sessions);
    EmptyHandedKeepsCompatible(cs, c, ClaimOf(p).program);
    assert ClaimsOf(ls.sessions[c := p]) == cs[c := Claim(ClaimOf(p).program, 0)];
    assert ClaimsOf(ls.sessions - {c}) == cs - {c};
  }

  lemma {:induction false} NextPhaseFits(db: Ring.State, p: Phase, act: Act)
    requires act.LockTable? || act.Snapshot? || act.LockRow? || act.Work?
    requires PhaseFits(db.row, p) && NextPhase(db, p, act).Some?
    requires act.LockTable? && (p.Appending? || p.Reading?) ==> p.got < 2
    requires act.Work? && p.ReclaimHolding? ==> p.stage < 3
    ensures PhaseFits(db.row, NextPhase(db, p, act).value)
  {
  }

  lemma {:induction false} NextPhaseKeepsInv(cut: Ring.Cut, ls: Server, c: Session, act: Act)
    requires Inv(ls) && Enabled(ls, c, act)
    requires act.LockTable? || act.Snapshot? || act.LockRow? || act.Work?
    ensures Inv(Next(cut, ls, c, act))
  {
    var p := ls.sessions[c];
    match NextPhase(ls.db, p, act)
    case None =>
      NewOrGone(ls, c, Reading(0));
    case Some(q) =>
      NextPhaseFits(ls.db, p, act);
      if act.LockTable? || act.LockRow? {
        GrantedPhase(ls, c, q);
      } else {
        SamePhaseLocks(ls, c, q);
      }
  }

  /** A commit changes the row only under the phases that do not depend on it. */
  lemma {:induction false} CommitKeepsInv(cut: Ring.Cut, ls: Server, c: Session)
    requires Inv(ls) && Enabled(ls, c, Commit)
    ensures Inv(Next(cut, ls, c, Commit))
  {
    NewOrGone(ls, c, Reading(0));
    var next := Next(cut, ls, c, Commit);
    forall d | d in next.sessions
      ensures PhaseFits(next.db.row, next.sessions[d])
    {
      OneHasRow(ls, c, d);
      assert PhaseFits(ls.db.row, ls.sessions[d]);
    }
  }

  lemma {:induction false} StepKeepsInv(cut: Ring.Cut, ls: Server, c: Session, act: Act)
    requires Inv(ls) && Enabled(ls, c, act)
    ensures Inv(Next(cut, ls, c, act))
  {
    match act
    case Begin(op) => NewOrGone(ls, c, FirstPhase(op));
    case BeginRead => NewOrGone(ls, c, Reading(0));
    case Rollback => NewOrGone(ls, c, Reading(0));
    case Commit => CommitKeepsInv(cut, ls, c);
    case _ => NextPhaseKeepsInv(cut, ls, c, act);
  }

  // ---------- serialisability ----------

  /**
   A commit is the whole operation, performed at that instant on what is committed:
   an append's rows land in the slot that is current then, and a reclaim does what
   the row says then.
   */
  lemma {:induction false} CommitIsOneStep(cut: Ring.Cut, ls: Server, c: Session)
    requires Inv(ls) && Enabled(ls, c, Commit)
    ensures Next(cut, ls, c, Commit).db == Ring.Step(cut, ls.db, OpOf(ls.sessions[c]))
    ensures Ring.Admits(ls.db.row, OpOf(ls.sessions[c]))
  {
    var p := ls.sessions[c];
    assert PhaseFits(ls.db.row, p);
    if p.ReclaimHolding? {
      ReclaimCommit(cut, ls.db, p);
    }
  }

  lemma {:induction false} ReclaimCommit(cut: Ring.Cut, db: Ring.State, p: Phase)
    requires p.ReclaimHolding? && p.stage == 3 && PhaseFits(db.row, p)
    ensures Committed(cut, db, p) == Ring.Step(cut, db, Ring.Reclaim(p.gate))
  {
  }

  /** A statement that matched nothing was refused by the row as it stood at that instant. */
  lemma {:induction false} RefusalIsTrue(cut: Ring.Cut, ls: Server, c: Session, act: Act)
    requires Inv(ls) && Enabled(ls, c, act) && (act.Snapshot? || act.LockRow?)
    requires c !in Next(cut, ls, c, act).sessions
    ensures !Ring.Admits(ls.db.row, OpOf(ls.sessions[c]))
    ensures Ring.Step(cut, ls.db, OpOf(ls.sessions[c])) == ls.db == Next(cut, ls, c, act).db
  {
  }

  datatype Event = Event(session: Session, act: Act)

  /** The events of a run, each enabled when it happens. */
  ghost predicate Possible(cut: Ring.Cut, ls: Server, run: seq<Event>)
    decreases |run|
  {
    run == [] ||
    (Enabled(ls, run[0].session, run[0].act) && Possible(cut, Next(cut, ls, run[0].session, run[0].act), run[1..]))
  }

  ghost function End(cut: Ring.Cut, ls: Server, run: seq<Event>): Server
    requires Possible(cut, ls, run)
    decreases |run|
  {
    if run == [] then ls else End(cut, Next(cut, ls, run[0].session, run[0].act), run[1..])
  }

  /** The committed operations, in commit order. */
  ghost function Serial(cut: Ring.Cut, ls: Server, run: seq<Event>): seq<Op>
    requires Possible(cut, ls, run)
    decreases |run|
  {
    if run == [] then [] else
      var rest := Serial(cut, Next(cut, ls, run[0].session, run[0].act), run[1..]);
      if run[0].act.Commit? then [OpOf(ls.sessions[run[0].session])] + rest else rest
  }

  lemma {:induction false} RunIsSerial(cut: Ring.Cut, ls: Server, run: seq<Event>)
    requires Inv(ls) && Possible(cut, ls, run)
    ensures Inv(End(cut, ls, run))
    ensures End(cut, ls, run).db == Ring.Run(cut, ls.db, Serial(cut, ls, run))
    decreases |run|
  {
    if run != [] {
      var c, act := run[0].session, run[0].act;
      var next := Next(cut, ls, c, act);
      StepKeepsInv(cut, ls, c, act);
      RunIsSerial(cut, next, run[1..]);
      if act.Commit? {
        CommitIsOneStep(cut, ls, c);
        var rest := Serial(cut, next, run[1..]);
        assert ([OpOf(ls.sessions[c])] + rest)[1..] == rest;
      }
    }
  }

  const QUIET := Server(Ring.CREATED, map[])

  /**
   Serialisability, from a created log: whatever any number of sessions do, row and
   tables are those of the committed operations run one at a time in commit order,
   and so refine the abstract log. No two sessions ever hold conflicting locks.
   */
  lemma {:induction false} EveryInterleavingIsSerial(cut: Ring.Cut, run: seq<Event>)
    requires Possible(cut, QUIET, run)
    ensures var ops := Serial(cut, QUIET, run);
            && End(cut, QUIET, run).db == Refinement.After(cut, ops)
            && Refinement.Refines(cut, End(cut, QUIET, run).db, Refinement.Told(ops), Refinement.Older(cut, ops))
    ensures Inv(End(cut, QUIET, run))
  {
    RunIsSerial(cut, QUIET, run);
    Refinement.EveryRunRefines(cut, Serial(cut, QUIET, run));
  }

  /** In no reachable state is there a cycle of sessions waiting for each other. */
  lemma {:induction false} NoInterleavingDeadlocks(cut: Ring.Cut, run: seq<Event>, queue: Session -> nat, path: seq<Session>)
    requires Possible(cut, QUIET, run)
    requires WaitPath(ClaimsOf(End(cut, QUIET, run).sessions), queue, path)
    ensures path[0] != path[|path| - 1]
  {
    RunIsSerial(cut, QUIET, run);
    var end := End(cut, QUIET, run);
    ClaimsAreValid(end.db.row, end.sessions);
    NoWaitCycle(ClaimsOf(end.sessions), queue, path);
  }

  // ---------- and every operation can commit ----------

  /** One session with the server to itself. */
  function Only(db: Ring.State, c: Session, p: Phase): Server {
    Server(db, map[c := p])
  }

  ghost predicate LeadsTo(cut: Ring.Cut, ls: Server, run: seq<Event>, end: Server) {
    Possible(cut, ls, run) && End(cut, ls, run) == end
  }

  lemma {:induction false} OneMore(cut: Ring.Cut, ls: Server, c: Session, act: Act, rest: seq<Event>, end: Server)
    requires Enabled(ls, c, act) && LeadsTo(cut, Next(cut, ls, c, act), rest, end)
    ensures LeadsTo(cut, ls, [Event(c, act)] + rest, end)
  {
    assert ([Event(c, act)] + rest)[1..] == rest;
  }

  /** Nothing is in the way of a session that is alone. */
  lemma {:induction false} AloneIsGranted(db: Ring.State, c: Session, p: Phase)
    requires ClaimOf(p).Waiting()
    ensures Grantable(ClaimsOf(Only(db, c, p).sessions), c)
  {
    var claims := ClaimsOf(Only(db, c, p).sessions);
    assert claims[c] == ClaimOf(p);
  }

  /** A step that takes the session from one phase to another. */
  lemma {:induction false} OneStep(cut: Ring.Cut, db: Ring.State, c: Session, p: Phase, act: Act, q: Phase, rest: seq<Event>, end: Server)
    requires act.LockTable? || act.Snapshot? || act.LockRow? || act.Work?
    requires Enabled(Only(db, c, p), c, act) && NextPhase(db, p, act) == Some(q)
    requires LeadsTo(cut, Only(db, c, q), rest, end)
    ensures LeadsTo(cut, Only(db, c, p), [Event(c, act)] + rest, end)
  {
    assert map[c := p][c := q] == map[c := q];
    OneMore(cut, Only(db, c, p), c, act, rest, end);
  }

  lemma {:induction false} CommitStep(cut: Ring.Cut, db: Ring.State, c: Session, p: Phase) returns (run: seq<Event>)
    requires PhaseFits(db.row, p) && HasRow(p) && (p.ReclaimHolding? ==> p.stage == 3)
    ensures run == [Event(c, Commit)] + []
    ensures LeadsTo(cut, Only(db, c, p), run, Server(Ring.Step(cut, db, OpOf(p)), map[]))
  {
    var ls := Only(db, c, p);
    AloneIsInv(db, c, p);
    CommitIsOneStep(cut, ls, c);
    var end := Next(cut, ls, c, Commit);
    assert end.sessions == map[];
    OneMore(cut, ls, c, Commit, [], end);
    run := [Event(c, Commit)] + [];
  }

  lemma {:induction false} AloneIsInv(db: Ring.State, c: Session, p: Phase)
    requires PhaseFits(db.row, p)
    ensures Inv(Only(db, c, p))
  {
  }

  lemma {:induction false} UpdateRuns(cut: Ring.Cut, db: Ring.State, c: Session, op: Op) returns (run: seq<Event>)
    requires (op.Fence? || op.Trim?) && Ring.Admits(db.row, op)
    ensures LeadsTo(cut, Only(db, c, UpdateWaiting(op)), run, Server(Ring.Step(cut, db, op), map[]))
    ensures run != [] && run[|run| - 1] == Event(c, Commit)
  {
    var end := Server(Ring.Step(cut, db, op), map[]);
    var p, q := UpdateWaiting(op), UpdateHolding(op, db.row);
    run := CommitStep(cut, db, c, q);
    AloneIsGranted(db, c, p);
    OneStep(cut, db, c, p, LockRow, q, run, end);
    run := [Event(c, LockRow)] + run;
    OneStep(cut, db, c, p, Snapshot, p, run, end);
    run := [Event(c, Snapshot)] + run;
  }

  lemma {:induction false} AppendRuns(cut: Ring.Cut, db: Ring.State, c: Session, op: Op) returns (run: seq<Event>)
    requires op.Append? && Ring.Admits(db.row, op)
    ensures LeadsTo(cut, Only(db, c, Appending(op, 0)), run, Server(Ring.Step(cut, db, op), map[]))
    ensures run != [] && run[|run| - 1] == Event(c, Commit)
  {
    var end := Server(Ring.Step(cut, db, op), map[]);
    var p, q := AppendWaiting(op), AppendHolding(op, db.row);
    run := CommitStep(cut, db, c, q);
    AloneIsGranted(db, c, p);
    OneStep(cut, db, c, p, LockRow, q, run, end);
    run := [Event(c, LockRow)] + run;
    OneStep(cut, db, c, Appending(op, 2), Snapshot, p, run, end);
    run := [Event(c, Snapshot)] + run;
    AloneIsGranted(db, c, Appending(op, 1));
    OneStep(cut, db, c, Appending(op, 1), LockTable, Appending(op, 2), run, end);
    run := [Event(c, LockTable)] + run;
    AloneIsGranted(db, c, Appending(op, 0));
    OneStep(cut, db, c, Appending(op, 0), LockTable, Appending(op, 1), run, end);
    run := [Event(c, LockTable)] + run;
  }

  /** Reclaim under the row lock: its three statements and the commit. */
  lemma {:induction false} ReclaimWorks(cut: Ring.Cut, db: Ring.State, c: Session, gate: Row) returns (run: seq<Event>)
    requires Sendable(Ring.Reclaim(gate))
    ensures LeadsTo(cut, Only(db, c, ReclaimHolding(gate, db.row, db.row, false, 0)), run,
                    Server(Ring.Step(cut, db, Ring.Reclaim(gate)), map[]))
    ensures run != [] && run[|run| - 1] == Event(c, Commit)
  {
    var end := Server(Ring.Step(cut, db, Ring.Reclaim(gate)), map[]);
    var p0 := ReclaimHolding(gate, db.row, db.row, false, 0);
    var p1 := Worked(gate, db.row, db.row, false, 0);
    var p2 := Worked(gate, db.row, p1.tx, p1.emptied, 1);
    var p3 := Worked(gate, db.row, p2.tx, p2.emptied, 2);
    run := CommitStep(cut, db, c, p3);
    OneStep(cut, db, c, p2, Work, p3, run, end);
    run := [Event(c, Work)] + run;
    OneStep(cut, db, c, p1, Work, p2, run, end);
    run := [Event(c, Work)] + run;
    OneStep(cut, db, c, p0, Work, p1, run, end);
    run := [Event(c, Work)] + run;
  }

  lemma {:induction false} ReclaimRuns(cut: Ring.Cut, db: Ring.State, c: Session, gate: Row) returns (run: seq<Event>)
    requires Sendable(Ring.Reclaim(gate))
    ensures LeadsTo(cut, Only(db, c, FirstPhase(Ring.Reclaim(gate))), run,
                    Server(Ring.Step(cut, db, Ring.Reclaim(gate)), map[]))
    ensures run != [] && run[|run| - 1] == Event(c, Commit)
  {
    var end := Server(Ring.Step(cut, db, Ring.Reclaim(gate)), map[]);
    var p := ReclaimWaiting(gate);
    run := ReclaimWorks(cut, db, c, gate);
    AloneIsGranted(db, c, p);
    OneStep(cut, db, c, p, LockRow, ReclaimHolding(gate, db.row, db.row, false, 0), run, end);
    run := [Event(c, LockRow)] + run;
    if WantsTruncate(gate) {
      AloneIsGranted(db, c, ReclaimLocking(gate, 1));
      OneStep(cut, db, c, ReclaimLocking(gate, 1), LockTable, p, run, end);
      run := [Event(c, LockTable)] + run;
      AloneIsGranted(db, c, ReclaimLocking(gate, 0));
      OneStep(cut, db, c, ReclaimLocking(gate, 0), LockTable, ReclaimLocking(gate, 1), run, end);
      run := [Event(c, LockTable)] + run;
    }
  }

  /** And a read gets both its tables. */
  lemma {:induction false} ReadCanRun(cut: Ring.Cut, db: Ring.State, c: Session) returns (run: seq<Event>)
    ensures LeadsTo(cut, Server(db, map[]), run, Only(db, c, Reading(2))) && run != [] && run[0] == Event(c, BeginRead)
  {
    var end := Only(db, c, Reading(2));
    run := [];
    AloneIsGranted(db, c, Reading(1));
    OneStep(cut, db, c, Reading(1), LockTable, Reading(2), run, end);
    run := [Event(c, LockTable)] + run;
    AloneIsGranted(db, c, Reading(0));
    OneStep(cut, db, c, Reading(0), LockTable, Reading(1), run, end);
    run := [Event(c, LockTable)] + run;
    assert map[][c := Reading(0)] == map[c := Reading(0)];
    OneMore(cut, Server(db, map[]), c, BeginRead, run, end);
    run := [Event(c, BeginRead)] + run;
  }

  /**
   Every operation that the row admits can be carried out: with the server to itself, a
   session that begins it has a run that ends in its commit, and what is committed then
   is the whole operation.
   */
  lemma {:induction false} AdmittedCanCommit(cut: Ring.Cut, db: Ring.State, c: Session, op: Op) returns (run: seq<Event>)
    requires Ring.Admits(db.row, op)
    ensures LeadsTo(cut, Server(db, map[]), run, Server(Ring.Step(cut, db, op), map[]))
    ensures |run| >= 2 && run[0] == Event(c, Begin(op)) && run[|run| - 1] == Event(c, Commit)
  {
    match op {
      case Append(_, _, _) => run := AppendRuns(cut, db, c, op);
      case Reclaim(gate) => run := ReclaimRuns(cut, db, c, gate);
      case _ => run := UpdateRuns(cut, db, c, op);
    }
    assert map[][c := FirstPhase(op)] == map[c := FirstPhase(op)];
    OneMore(cut, Server(db, map[]), c, Begin(op), run, Server(Ring.Step(cut, db, op), map[]));
    run := [Event(c, Begin(op))] + run;
  }
}
