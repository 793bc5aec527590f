/**
 The locks the statements take and what conflicts with what: the modes of section
 13.3.1 of the PostgreSQL manual that occur here, and the row lock of an UPDATE.

 A session takes the locks of its program one after another and keeps them until
 it ends. Whether sessions can block each other for ever is a question about the
 order of those programs alone.
 */
module LockTable {

  datatype Resource = EntryTable(slot: nat) | RegistryRow

  /** AccessShare: a read. RowExclusive: an INSERT. AccessExclusive: LOCK TABLE, TRUNCATE. Update: a row lock. */
  datatype Mode = AccessShare | RowExclusive | AccessExclusive | Update

  predicate Conflict(a: Mode, b: Mode) {
    a == AccessExclusive || b == AccessExclusive || (a == Update && b == Update)
  }

  datatype Request = Request(on: Resource, mode: Mode)

  /** The first `got` locks of the program are held. */
  datatype Claim = Claim(program: seq<Request>, got: nat) {
    predicate Valid() {
      got <= |program|
    }

    predicate Waiting() {
      got < |program|
    }

    predicate Bars(req: Request) {
      got <= |program| && exists i :: 0 <= i < got && program[i].on == req.on && Conflict(program[i].mode, req.mode)
    }
  }

  /** The tables in slot order, then the row. */
  function Rank(r: Resource): nat {
    match r
    case EntryTable(slot) => if slot == 0 then 0 else 1
    case RegistryRow => 2
  }

  predicate Disciplined(program: seq<Request>) {
    forall i, j :: 0 <= i < j < |program| ==> Rank(program[i].on) < Rank(program[j].on)
  }

  // ---------- the programs of the operations ----------

  const INSERT_BOTH: seq<Request> := [Request(EntryTable(0), RowExclusive), Request(EntryTable(1), RowExclusive)]
  const LOCK_BOTH: seq<Request> := [Request(EntryTable(0), AccessExclusive), Request(EntryTable(1), AccessExclusive)]
  const THE_ROW: seq<Request> := [Request(RegistryRow, Update)]

  const APPEND := INSERT_BOTH + THE_ROW
  const RECLAIM := LOCK_BOTH + THE_ROW
  const ROW_ONLY := THE_ROW
  const READ: seq<Request> := [Request(EntryTable(0), AccessShare), Request(EntryTable(1), AccessShare)]

  /** The order reclaim does not use: the row first, then the tables. */
  const ROW_FIRST := THE_ROW + LOCK_BOTH

  predicate OwnProgram(program: seq<Request>) {
    program == APPEND || program == RECLAIM || program == ROW_ONLY || program == READ
  }

  lemma {:induction false} OwnProgramsAreDisciplined(program: seq<Request>)
    requires OwnProgram(program)
    ensures Disciplined(program)
  {
  }

  // ---------- waiting ----------

  type Session = nat
  type Claims = map<Session, Claim>

  predicate AllValid(claims: Claims) {
    forall c :: c in claims ==> claims[c].Valid()
  }

  predicate AllDisciplined(claims: Claims) {
    AllValid(claims) && forall c :: c in claims ==> Disciplined(claims[c].program)
  }

  predicate Wants(claims: Claims, c: Session) {
    c in claims && claims[c].Waiting()
  }

  function Wanted(claims: Claims, c: Session): Request
    requires Wants(claims, c)
  {
    claims[c].program[claims[c].got]
  }

  /** `c` waits for `d`: d holds what c wants, or stands before it in the queue for it. */
  ghost predicate WaitsFor(claims: Claims, queue: Session -> nat, c: Session, d: Session) {
    && c != d && Wants(claims, c) && d in claims
    && (claims[d].Bars(Wanted(claims, c))
        || (Wants(claims, d) && Wanted(claims, d).on == Wanted(claims, c).on && queue(d) < queue(c)))
  }

  ghost predicate WaitPath(claims: Claims, queue: Session -> nat, path: seq<Session>) {
    && |path| >= 2
    && forall i :: 0 <= i < |path| - 1 ==> WaitsFor(claims, queue, path[i], path[i + 1])
  }

  /** Going from a waiter to what it waits for moves up the ranks, or forward in one queue. */
  lemma {:induction false} WaitingClimbs(claims: Claims, queue: Session -> nat, c: Session, d: Session)
    requires AllDisciplined(claims) && WaitsFor(claims, queue, c, d) && Wants(claims, d)
    ensures var rc, rd := Rank(Wanted(claims, c).on), Rank(Wanted(claims, d).on);
            rc < rd || (rc == rd && queue(d) < queue(c))
  {
    if claims[d].Bars(Wanted(claims, c)) {
      var k :| 0 <= k < claims[d].got && claims[d].program[k].on == Wanted(claims, c).on;
      assert Rank(claims[d].program[k].on) < Rank(claims[d].program[claims[d].got].on);
    }
  }

  lemma {:induction false} PathClimbs(claims: Claims, queue: Session -> nat, path: seq<Session>)
    requires AllDisciplined(claims) && WaitPath(claims, queue, path) && Wants(claims, path[|path| - 1])
    ensures Wants(claims, path[0])
    ensures var r0, r1 := Rank(Wanted(claims, path[0]).on), Rank(Wanted(claims, path[|path| - 1]).on);
            r0 < r1 || (r0 == r1 && queue(path[|path| - 1]) < queue(path[0]))
    decreases |path|
  {
    assert WaitsFor(claims, queue, path[0], path[0 + 1]);
    if |path| > 2 {
      assert WaitsFor(claims, queue, path[1], path[1 + 1]);
      PathClimbs(claims, queue, path[1..]);
    }
    WaitingClimbs(claims, queue, path[0], path[1]);
  }

  /**
   No deadlock. However many sessions run programs that take the tables in slot
   order and the row last, however far each has got and in whatever order they are
   queued, the wait-for graph has no cycle.
   */
  lemma {:induction false} NoWaitCycle(claims: Claims, queue: Session -> nat, path: seq<Session>)
    requires AllDisciplined(claims) && WaitPath(claims, queue, path)
    ensures path[0] != path[|path| - 1]
  {
    if path[0] == path[|path| - 1] {
      assert WaitsFor(claims, queue, path[0], path[0 + 1]);
      PathClimbs(claims, queue, path);
      assert false;
    }
  }

  /** Whether nothing held by another session is in the way of the next lock. */
  ghost predicate Grantable(claims: Claims, c: Session) {
    Wants(claims, c) && forall d :: d in claims && d != c ==> !claims[d].Bars(Wanted(claims, c))
  }

  /**
   Progress. Where some session is waiting, some session can move: one that holds
   everything it asked for, or one whose next lock is free.
   */
  lemma {:induction false} SomeoneCanMove(claims: Claims, c: Session)
    requires AllDisciplined(claims) && Wants(claims, c)
    ensures exists d :: d in claims && (!claims[d].Waiting() || Grantable(claims, d))
    decreases 2 - Rank(Wanted(claims, c).on)
  {
    if !Grantable(claims, c) {
      var d :| d in claims && d != c && claims[d].Bars(Wanted(claims, c));
      if Wants(claims, d) {
        WaitingClimbs(claims, _ => 0, c, d);
        SomeoneCanMove(claims, d);
      }
    }
  }

  // ---------- granting ----------

  /** No two sessions hold conflicting locks. */
  ghost predicate Compatible(claims: Claims) {
    forall c, d, k :: c in claims && d in claims && c != d && 0 <= k < claims[c].got && claims[c].Valid() ==>
      !claims[d].Bars(claims[c].program[k])
  }

  lemma {:induction false} GrantKeepsCompatible(claims: Claims, c: Session)
    requires AllValid(claims) && Compatible(claims) && Grantable(claims, c)
    ensures Compatible(claims[c := claims[c].(got := claims[c].got + 1)])
  {
    var more := claims[c := claims[c].(got := claims[c].got + 1)];
    forall x, y, k | x in more && y in more && x != y && 0 <= k < more[x].got && more[x].Valid()
      ensures !more[y].Bars(more[x].program[k])
    {
      if x == c && k == claims[c].got {
        assert !claims[y].Bars(Wanted(claims, c));
      } else if y == c {
        assert !claims[c].Bars(claims[x].program[k]);
        assert !claims[x].Bars(Wanted(claims, c));
        assert !Conflict(Wanted(claims, c).mode, claims[x].program[k].mode) || Wanted(claims, c).on != claims[x].program[k].on;
      } else {
        assert !claims[y].Bars(claims[x].program[k]);
      }
    }
  }

  /** Starting out with nothing held, or letting everything go, is in nobody's way. */
  lemma {:induction false} EmptyHandedKeepsCompatible(claims: Claims, c: Session, program: seq<Request>)
    requires Compatible(claims)
    ensures Compatible(claims[c := Claim(program, 0)]) && Compatible(claims - {c})
  {
    var more := claims[c := Claim(program, 0)];
    forall x, y, k | x in more && y in more && x != y && 0 <= k < more[x].got && more[x].Valid()
      ensures !more[y].Bars(more[x].program[k])
    {
      if y != c {
        assert !claims[y].Bars(claims[x].program[k]);
      }
    }
    var less := claims - {c};
    forall x, y, k | x in less && y in less && x != y && 0 <= k < less[x].got && less[x].Valid()
      ensures !less[y].Bars(less[x].program[k])
    {
      assert !claims[y].Bars(claims[x].program[k]);
    }
  }

  // ---------- the row-first variant ----------

  /** A session starts a program, takes its next lock when that is free, or ends. */
  datatype Move = Start(c: Session, program: seq<Request>) | Take(c: Session) | End(c: Session)

  ghost predicate CanMove(claims: Claims, m: Move) {
    match m
    case Start(c, _) => c !in claims
    case Take(c) => Grantable(claims, c)
    case End(c) => c in claims && !claims[c].Waiting()
  }

  function Moved(claims: Claims, m: Move): Claims {
    match m
    case Start(c, program) => claims[c := Claim(program, 0)]
    case Take(c) => if c in claims then claims[c := claims[c].(got := claims[c].got + 1)] else claims
    case End(c) => claims - {c}
  }

  ghost predicate Reaches(claims: Claims, moves: seq<Move>, end: Claims)
    decreases |moves|
  {
    if moves == [] then claims == end
    else CanMove(claims, moves[0]) && Reaches(Moved(claims, moves[0]), moves[1..], end)
  }

  lemma {:induction false} OneMove(claims: Claims, m: Move, rest: seq<Move>, end: Claims)
    requires CanMove(claims, m) && Reaches(Moved(claims, m), rest, end)
    ensures Reaches(claims, [m] + rest, end)
  {
    assert ([m] + rest)[1..] == rest;
  }

  /** Session 1 has both tables of an append and wants the row; session 2 has taken the row and wants a table. */
  const STUCK: Claims := map[1 := Claim(APPEND, 2), 2 := Claim(ROW_FIRST, 1)]

  lemma {:induction false} StuckWaits(queue: Session -> nat)
    ensures WaitPath(STUCK, queue, [1, 2, 1])
  {
    assert APPEND[0].on == EntryTable(0) && ROW_FIRST[0].on == RegistryRow;
    assert STUCK[1].Bars(Wanted(STUCK, 2)) by { assert STUCK[1].program[0].on == EntryTable(0); }
    assert STUCK[2].Bars(Wanted(STUCK, 1)) by { assert STUCK[2].program[0].on == RegistryRow; }
    assert WaitsFor(STUCK, queue, 1, 2) && WaitsFor(STUCK, queue, 2, 1);
  }

  /** The append takes its tables, then the other session the row. */
  lemma {:induction false} StuckIsReached() returns (moves: seq<Move>)
    ensures Reaches(map[], moves, STUCK)
  {
    var s0: Claims := map[];
    var s1: Claims := map[1 := Claim(APPEND, 0)];
    var s2: Claims := map[1 := Claim(APPEND, 1)];
    var s3: Claims := map[1 := Claim(APPEND, 2)];
    var s4: Claims := map[1 := Claim(APPEND, 2), 2 := Claim(ROW_FIRST, 0)];
    assert Moved(s4, Take(2)) == STUCK && Moved(s3, Start(2, ROW_FIRST)) == s4;
    assert Moved(s2, Take(1)) == s3 && Moved(s1, Take(1)) == s2 && Moved(s0, Start(1, APPEND)) == s1;
    moves := [];
    assert Reaches(STUCK, moves, STUCK);
    RowIsFree(s4);
    OneMove(s4, Take(2), moves, STUCK);
    moves := [Take(2)] + moves;
    OneMove(s3, Start(2, ROW_FIRST), moves, STUCK);
    moves := [Start(2, ROW_FIRST)] + moves;
    OneMove(s2, Take(1), moves, STUCK);
    moves := [Take(1)] + moves;
    OneMove(s1, Take(1), moves, STUCK);
    moves := [Take(1)] + moves;
    OneMove(s0, Start(1, APPEND), moves, STUCK);
    moves := [Start(1, APPEND)] + moves;
  }

  lemma {:induction false} RowIsFree(claims: Claims)
    requires claims == map[1 := Claim(APPEND, 2), 2 := Claim(ROW_FIRST, 0)]
    ensures Grantable(claims, 2)
  {
  }

  /**
   The order matters: one append and one reclaim that took the row first reach, from
   nothing, a state in which each waits for the other.
   */
  lemma {:induction false} RowFirstDeadlocks(queue: Session -> nat) returns (moves: seq<Move>, end: Claims)
    ensures Reaches(map[], moves, end)
    ensures WaitPath(end, queue, [1, 2, 1])
  {
    StuckWaits(queue);
    end := STUCK;
    moves := StuckIsReached();
  }
}
