/**
 The Store as its callers use it (store.go): each call checks its arguments, sends
 statements whose parameters are cast to the columns' types, and diagnoses a
 refusal. A call here runs undisturbed; what may come between its statements is the
 business of modules Locks, Reads and Diagnosis. Every call is proved to do to the
 database what the corresponding operation of modules Registry and Ring does.
 */
module Store {
  import opened Words
  import opened Rules
  import opened Codec
  import opened Ring
  import opened Registry
  import opened Diagnosis
  import Casts
  import Reads
  import Refinement
  import A = AbstractLog

  datatype Reply = Ok | BadArgument(fault: Checked) | Refused(why: Diagnosis)

  datatype ReadReply = BadLimit | Read(reading: Reading)

  /** The bigint columns hold what the program reads back as unsigned. */
  predicate RowInRange(row: Row) {
    Casts.Column(row.epoch) && Casts.Column(row.lastSeqno) && row.trimUpto <= row.lastSeqno
  }

  ghost predicate Good(db: Db) {
    db.Valid() && forall id :: id in db.registry ==> RowInRange(db.registry[id].row)
  }

  ghost predicate CacheAgrees(cache: Cache, db: Db) {
    forall id :: id in cache ==> id in db.registry && cache[id] == AppendSQL(db.registry[id].ordinal)
  }

  class Database {
    var registry: map<LogId, Registered>
    var tables: map<Name, Table>
    var nextOrdinal: nat

    ghost function Value(): Db
      reads this
    {
      Db(registry, tables, nextOrdinal)
    }

    constructor ()
      ensures Good(Value()) && Value() == EMPTY
    {
      registry, tables, nextOrdinal := map[], map[], 1;
    }
  }

  function CreatedAll(db: Db, ids: seq<LogId>): Db {
    if ids == [] then db else Created(CreatedAll(db, ids[..|ids| - 1]), ids[|ids| - 1])
  }

  /** What a fence comes to: epochs the column cannot hold are never admitted, and their refusal has no name. */
  function FenceReply(db: Db, id: LogId, epoch: nat): Reply {
    if epoch == 0 then BadArgument(ErrZeroEpoch)
    else if id !in db.registry then Refused(NoSuchLog)
    else if db.registry[id].row.epoch > epoch then Refused(Named(ErrFenced))
    else if epoch < TWO63 then Ok else Refused(Unnamed)
  }

  function FencedDb(db: Db, id: LogId, epoch: nat): Db {
    if FenceReply(db, id, epoch) == Ok then Updated(Laid, db, id, Ring.Fence(epoch)) else db
  }

  function AppendReply(db: Db, id: LogId, epoch: nat, first: nat, payloads: seq<Bytes>): Reply {
    var checked := CheckAppend(epoch, first, |payloads|);
    if !checked.Admitted? then BadArgument(checked)
    else if id !in db.registry then Refused(Named(ErrFenced))
    else match AppendRefusal(epoch, first, db.registry[id].row.Found())
         case None => Ok
         case Some(r) => Refused(Named(r))
  }

  /** The batch ends where the bigint column still does; past that its last seqno is stored as a negative number. */
  predicate EndsInColumn(first: nat, payloads: seq<Bytes>) {
    first + |payloads| <= TWO63
  }

  /** The current table of a log with more rows in it, and the row's last seqno, as it is read back, moved. */
  function Inserted(db: Db, id: LogId, last: nat, rows: Table): Db
    requires id in db.registry && db.HasTables(db.registry[id].ordinal)
  {
    var reg := db.registry[id];
    var name := EntriesTable(reg.ordinal, reg.row.curSlot);
    db.WithRow(id, reg.row.(lastSeqno := last)).(tables := db.tables[name := db.tables[name] + rows])
  }

  function AppendedDb(cut: Cut, db: Db, id: LogId, epoch: nat, first: nat, payloads: seq<Bytes>): Db
    requires id in db.registry ==> db.HasTables(db.registry[id].ordinal)
  {
    if AppendReply(db, id, epoch, first, payloads) == Ok
    then Inserted(db, id, first + |payloads| - 1, BatchRows(cut, epoch, first, payloads))
    else db
  }

  function TrimmedDb(db: Db, id: LogId, upTo: nat): Db {
    if id in db.registry && CheckTrim(upTo) then Updated(Laid, db, id, Ring.Trim(upTo)) else db
  }

  /** The rows an append inserts are its batch as the ring lays it out. */
  lemma {:induction false} InsertedRows(rows: seq<EntryRow>, epoch: nat, first: nat, payloads: seq<Bytes>)
    requires rows == RowsOf(BatchEntries(epoch, first, payloads))
    ensures multiset(rows) == BatchRows(Laid, epoch, first, payloads)
  {
    var batch := BatchEntries(epoch, first, payloads);
    Reads.HeldIsRows(batch, 1, |batch|);
    assert batch[0..|batch|] == batch;
  }

  /** The statement's array parameters, unnested: the rows of the batch. */
  method BatchTable(epoch: nat, first: nat, payloads: seq<Bytes>) returns (rows: Table)
    ensures rows == BatchRows(Laid, epoch, first, payloads)
  {
    var seqnos, chunks, parts := ChunkArrays(first, payloads, epoch);
    var unnested := Unnest(seqnos, chunks, parts, epoch);
    InsertedRows(unnested, epoch, first, payloads);
    rows := multiset(unnested);
  }

  // ---------- what every call keeps ----------

  /** No log goes away and no ordinal changes. */
  ghost predicate Grown(db: Db, t: Db) {
    Good(t) && forall id :: id in db.registry ==> id in t.registry && t.registry[id].ordinal == db.registry[id].ordinal
  }

  lemma {:induction false} GrownCache(cache: Cache, db: Db, t: Db)
    requires CacheAgrees(cache, db) && Grown(db, t)
    ensures CacheAgrees(cache, t)
  {
  }

  lemma {:induction false} TouchedIsGrown(db: Db, t: Db, id: LogId)
    requires Good(db) && id in db.registry && OnlyTouches(db, t, id) && t.Valid()
    requires id in t.registry ==> RowInRange(t.registry[id].row)
    ensures Grown(db, t)
  {
    forall x | x in t.registry
      ensures RowInRange(t.registry[x].row)
    {
      assert x in t.registry.Keys;
    }
    forall x | x in db.registry
      ensures x in t.registry
    {
      assert x in t.registry.Keys;
    }
  }

  lemma {:induction false} ReclaimedIsGrown(db: Db, id: LogId, gate: Row)
    requires Good(db) && id in db.registry
    ensures Grown(db, Reclaimed(db, id, gate))
  {
    ReclaimTouches(Laid, db, id, gate);
    TouchedIsGrown(db, Reclaimed(db, id, gate), id);
  }

  /** An append whose batch ends in the column is the ring's, through the log's own statement. */
  lemma {:induction false} AppendIsTheRings(cut: Cut, db: Db, id: LogId, epoch: nat, first: nat, payloads: seq<Bytes>)
    requires id in db.registry && db.HasTables(db.registry[id].ordinal) && EndsInColumn(first, payloads)
    ensures AppendedDb(cut, db, id, epoch, first, payloads)
         == Appended(cut, db, id, AppendSQL(db.registry[id].ordinal), Ring.Append(epoch, first, payloads))
  {
  }

  lemma {:induction false} AppendedIsGrown(cut: Cut, db: Db, id: LogId, epoch: nat, first: nat, payloads: seq<Bytes>)
    requires Good(db) && id in db.registry && EndsInColumn(first, payloads)
    ensures Grown(db, AppendedDb(cut, db, id, epoch, first, payloads))
  {
    var op: Op := Ring.Append(epoch, first, payloads);
    AppendIsTheRings(cut, db, id, epoch, first, payloads);
    AppendTouches(cut, db, id, op);
    AppendedRow(cut, db, id, op);
    TouchedIsGrown(db, Appended(cut, db, id, AppendSQL(db.registry[id].ordinal), op), id);
  }

  /** The cast WHERE clause matches exactly where the reply is Ok, and the last seqno is read back as the batch's. */
  lemma {:induction false} ClaimDecides(row: Row, epoch: nat, first: nat, payloads: nat, last: nat)
    requires RowInRange(row) && Casts.Word(epoch) && Casts.Word(first) && payloads < TWO63
    requires CheckAppend(epoch, first, payloads) == Admitted(last)
    ensures var matches := Casts.AppendWhere(row.epoch, row.lastSeqno, epoch, first);
            && (matches <==> AppendRefusal(epoch, first, row.Found()) == None)
            && (matches ==> FromInt64(ToInt64(last)) == first + payloads - 1)
            && (matches && first + payloads > TWO63 ==> ToInt64(last) < 0)
  {
    Casts.AppendCast(row.epoch, row.lastSeqno, epoch, first);
    if Casts.AppendWhere(row.epoch, row.lastSeqno, epoch, first) {
      assert first == row.lastSeqno + 1;
      assert Add64(first, payloads) == first + payloads;
    }
  }

  /**
   What an append answers, told from its arguments and the row: the argument at fault
   first; ErrFenced where the log belongs to another epoch, to nobody or is not there;
   then whether a seqno of the batch is taken, or the one below it missing.
   */
  ghost predicate AppendAnswer(r: Reply, db: Db, id: LogId, epoch: nat, first: nat, payloads: nat) {
    if epoch == 0 then r == BadArgument(ErrZeroEpoch)
    else if first == 0 then r == BadArgument(ErrBelowFirst)
    else if payloads == 0 then r == BadArgument(ErrNoPayloads)
    else if id !in db.registry then r == Refused(Named(ErrFenced))
    else
      var owner, last := db.registry[id].row.epoch, db.registry[id].row.lastSeqno;
      && (r == Refused(Named(ErrFenced)) <==> owner != epoch)
      && (r == Refused(Named(ErrAlreadyWritten)) <==> owner == epoch && first <= last)
      && (r == Refused(Named(ErrGap)) <==> owner == epoch && last + 1 < first)
      && (r == Ok <==> owner == epoch && first == last + 1)
  }

  lemma {:induction false} AppendAnswers(db: Db, id: LogId, epoch: nat, first: nat, payloads: seq<Bytes>)
    ensures AppendAnswer(AppendReply(db, id, epoch, first, payloads), db, id, epoch, first, |payloads|)
  {
  }

  /** A log that is not there is refused as one that nobody has fenced and nothing was appended to. */
  lemma {:induction false} MissingIsUnfenced(db: Db, id: LogId, epoch: nat, first: nat, payloads: seq<Bytes>)
    requires id !in db.registry && CheckAppend(epoch, first, |payloads|).Admitted?
    ensures AppendRefusal(epoch, first, AppendState(0, 0)).Some?
    ensures AppendReply(db, id, epoch, first, payloads)
         == Refused(Named(AppendRefusal(epoch, first, AppendState(0, 0)).value))
         == Refused(DiagnoseAppend(None, epoch, first))
  {
  }

  /** What the statement's outcome makes the reply. */
  lemma {:induction false} ClaimReplies(db: Db, id: LogId, epoch: nat, first: nat, payloads: seq<Bytes>, last: nat)
    requires id in db.registry && CheckAppend(epoch, first, |payloads|) == Admitted(last)
    ensures var row := db.registry[id].row;
            var reply := AppendReply(db, id, epoch, first, payloads);
            && (AppendRefusal(epoch, first, row.Found()) == None ==> reply == Ok)
            && (AppendRefusal(epoch, first, row.Found()) != None ==> reply == Refused(DiagnoseAppend(Some(row), epoch, first)))
  {
  }

  lemma {:induction false} AppendedRow(cut: Cut, db: Db, id: LogId, op: Op)
    requires id in db.registry && op.Append?
    ensures var t := Appended(cut, db, id, AppendSQL(db.registry[id].ordinal), op);
            id in t.registry && t.registry[id].row.epoch == db.registry[id].row.epoch
            && t.registry[id].row.trimUpto == db.registry[id].row.trimUpto
            && (t.registry[id].row.lastSeqno == db.registry[id].row.lastSeqno
                || (Admits(db.registry[id].row, op) && t.registry[id].row.lastSeqno == op.first + |op.payloads| - 1))
  {
  }

  lemma {:induction false} CreatedNext(db: Db, ids: seq<LogId>, i: nat)
    requires i < |ids|
    ensures CreatedAll(db, ids[..i + 1]) == Created(CreatedAll(db, ids[..i]), ids[i])
  {
    assert ids[..i + 1][..i] == ids[..i];
  }

  lemma {:induction false} CreatedIsGrown(db: Db, id: LogId)
    requires Good(db)
    ensures Grown(db, Created(db, id)) && id in Created(db, id).registry
  {
    CreateAdds(db, id, id);
  }

  /** A batch of creations: every id is there afterwards, and what was there is exactly as it was. */
  lemma {:induction false} CreatedAllAdds(db: Db, ids: seq<LogId>, other: LogId)
    requires Good(db)
    ensures var t := CreatedAll(db, ids);
            && Grown(db, t)
            && (other in ids ==> other in t.registry)
            && (other in db.registry ==> other in t.registry && t.View(other) == db.View(other))
    decreases |ids|
  {
    if ids != [] {
      var init, last := ids[..|ids| - 1], ids[|ids| - 1];
      CreatedAllAdds(db, init, other);
      var t := CreatedAll(db, init);
      CreatedIsGrown(t, last);
      CreateAdds(t, last, other);
      assert ids == init + [last];
    }
  }

  class Store {
    const db: Database
    var appends: Cache

    ghost predicate Valid()
      reads this, db
    {
      Good(db.Value()) && CacheAgrees(appends, db.Value())
    }

    constructor (db: Database)
      requires Good(db.Value())
      ensures Valid() && this.db == db && appends == map[]
    {
      this.db := db;
      appends := map[];
    }

    /** Caches a log's statement; the one that is there stays. */
    method Remember(id: LogId, ordinal: nat) returns (sql: Statement)
      requires Valid() && id in db.registry && db.registry[id].ordinal == ordinal
      modifies this`appends
      ensures Valid() && sql == AppendSQL(ordinal)
      ensures appends == Registry.Remember(old(appends), id, ordinal)
    {
      if id in appends {
        return appends[id];
      }
      sql := AppendSQL(ordinal);
      appends := appends[id := sql];
    }

    /** A log's statement from the cache or from the registry; none for a log that is not there. */
    method AppendFor(id: LogId) returns (sql: Option<Statement>)
      requires Valid()
      modifies this`appends
      ensures Valid() && sql == if id in db.registry then Some(AppendSQL(db.registry[id].ordinal)) else None
    {
      if id in appends {
        return Some(appends[id]);
      }
      if id !in db.registry {
        return None;
      }
      var built := Remember(id, db.registry[id].ordinal);
      return Some(built);
    }

    method CreateLogs(ids: seq<LogId>)
      requires Valid()
      modifies db
      ensures Valid() && db.Value() == CreatedAll(old(db.Value()), ids)
    {
      ghost var was := db.Value();
      for i := 0 to |ids|
        modifies db
        invariant Valid() && db.Value() == CreatedAll(was, ids[..i])
      {
        CreatedNext(was, ids, i);
        CreateOne(ids[i]);
      }
      assert ids[..|ids|] == ids;
    }

    /** One id of a batch: a fresh ordinal, and for a log not there yet a row and two empty tables. */
    method CreateOne(id: LogId)
      requires Valid()
      modifies db
      ensures Valid() && db.Value() == Created(old(db.Value()), id)
    {
      ghost var was := db.Value();
      var ordinal := db.nextOrdinal;
      if id !in db.registry {
        db.registry := db.registry[id := Registered(ordinal, CREATED.row)];
        db.tables := db.tables[EntriesTable(ordinal, 0) := multiset{}][EntriesTable(ordinal, 1) := multiset{}];
      }
      db.nextOrdinal := ordinal + 1;
      CreatedIsGrown(was, id);
      GrownCache(appends, was, db.Value());
    }

    /**
     A fence is Ok exactly at or above the epoch held, so also at that epoch itself, and
     short of 2^63; every other answer names what is in its way.
     */
    method Fence(id: LogId, epoch: nat) returns (r: Reply)
      requires Valid() && Casts.Word(epoch)
      modifies this`appends, db
      ensures Valid() && db.Value() == FencedDb(old(db.Value()), id, epoch)
      ensures r == FenceReply(old(db.Value()), id, epoch)
      ensures epoch == 0 ==> r == BadArgument(ErrZeroEpoch)
      ensures epoch > 0 && id !in old(db.registry) ==> r == Refused(NoSuchLog)
      ensures epoch > 0 && id in old(db.registry) ==>
                var held := old(db.registry)[id].row.epoch;
                && (r == Ok <==> held <= epoch < TWO63)
                && (r == Refused(Named(ErrFenced)) <==> epoch < held)
                && (r == Refused(Unnamed) <==> held <= epoch && TWO63 <= epoch)
      ensures r == Ok ==>
                && id in old(db.registry) && db.tables == old(db.tables)
                && db.registry == old(db.registry)[id := old(db.registry)[id].(row := old(db.registry)[id].row.(epoch := epoch))]
      ensures r != Ok ==> db.Value() == old(db.Value())
    {
      if epoch == 0 {
        return BadArgument(ErrZeroEpoch);
      }
      if id in db.registry {
        var reg := db.registry[id];
        Casts.FenceCast(reg.row.epoch, epoch);
        if reg.row.epoch <= ToInt64(epoch) {
          SetRow(id, reg.row.(epoch := ToInt64(epoch)), FencedDb(db.Value(), id, epoch));
          var _ := Remember(id, reg.ordinal);
          return Ok;
        }
      }
      return Refused(DiagnoseFence(if id in db.registry then Some(db.registry[id].row) else None, epoch));
    }

    /** An UPDATE of the row that takes the database to `t`. */
    method SetRow(id: LogId, row: Row, ghost t: Db)
      requires Valid() && id in db.registry && t == db.Value().WithRow(id, row) && RowInRange(row)
      modifies db`registry
      ensures Valid() && db.Value() == t && id in db.registry && db.registry[id] == old(db.registry[id]).(row := row)
    {
      ghost var was := db.Value();
      db.registry := db.registry[id := db.registry[id].(row := row)];
      RowKeeps(was, id, row);
      TouchedIsGrown(was, t, id);
      GrownCache(appends, was, t);
    }

    /**
     The ring's append where the batch ends in the column. A batch that is admitted and
     ends past it goes in as well, and leaves a row whose last seqno the database has as
     a negative number: the Store is not good for more from there.
     */
    method Append(id: LogId, epoch: nat, first: nat, payloads: seq<Bytes>) returns (r: Reply)
      requires Valid() && Casts.Word(epoch) && Casts.Word(first) && |payloads| < TWO63
      modifies this`appends, db
      ensures r == AppendReply(old(db.Value()), id, epoch, first, payloads)
      ensures AppendAnswer(r, old(db.Value()), id, epoch, first, |payloads|)
      ensures db.Value() == AppendedDb(Laid, old(db.Value()), id, epoch, first, payloads)
      ensures r != Ok || EndsInColumn(first, payloads) ==> Valid()
      ensures r == Ok && !EndsInColumn(first, payloads) ==>
                id in db.registry && ToInt64(db.registry[id].row.lastSeqno) < 0
    {
      AppendAnswers(db.Value(), id, epoch, first, payloads);
      ghost var cut: Cut := Laid;
      var checked := CheckAppend(epoch, first, |payloads|);
      if !checked.Admitted? {
        return BadArgument(checked);
      }
      var sql := AppendFor(id);
      if sql.None? {
        return Refused(DiagnoseAppend(None, epoch, first));
      }
      var rows := BatchTable(epoch, first, payloads);
      r := Claim(id, sql.value, epoch, first, payloads, checked.last, rows, cut);
    }

    /** The append statement: the claim on the row, and the rows into the slot it returns. */
    method Claim(id: LogId, sql: Statement, epoch: nat, first: nat, payloads: seq<Bytes>, last: nat, rows: Table,
                 ghost cut: Cut) returns (r: Reply)
      requires Valid() && id in db.registry && sql == AppendSQL(db.registry[id].ordinal)
      requires Casts.Word(epoch) && Casts.Word(first) && |payloads| < TWO63
      requires CheckAppend(epoch, first, |payloads|) == Admitted(last) && rows == BatchRows(cut, epoch, first, payloads)
      modifies db
      ensures r == AppendReply(old(db.Value()), id, epoch, first, payloads)
      ensures db.Value() == AppendedDb(cut, old(db.Value()), id, epoch, first, payloads)
      ensures r != Ok || EndsInColumn(first, payloads) ==> Valid()
      ensures r == Ok && !EndsInColumn(first, payloads) ==>
                id in db.registry && ToInt64(db.registry[id].row.lastSeqno) < 0
    {
      var row := db.registry[id].row;
      ClaimDecides(row, epoch, first, |payloads|, last);
      ClaimReplies(db.Value(), id, epoch, first, payloads, last);
      if row.epoch == ToInt64(epoch) && row.lastSeqno == ToInt64(Sub64(first, 1)) {
        Insert(id, sql, epoch, first, payloads, FromInt64(ToInt64(last)), rows, cut);
        return Ok;
      }
      return Refused(DiagnoseAppend(Some(row), epoch, first));
    }

    /** Where the claim matched: `last` is the new last seqno as it will be read back. */
    method Insert(id: LogId, sql: Statement, ghost epoch: nat, ghost first: nat, ghost payloads: seq<Bytes>, last: nat,
                  rows: Table, ghost cut: Cut)
      requires Valid() && id in db.registry && sql == AppendSQL(db.registry[id].ordinal)
      requires AppendReply(db.Value(), id, epoch, first, payloads) == Ok
      requires last == first + |payloads| - 1 && rows == BatchRows(cut, epoch, first, payloads)
      modifies db
      ensures db.Value() == AppendedDb(cut, old(db.Value()), id, epoch, first, payloads)
      ensures EndsInColumn(first, payloads) ==> Valid()
      ensures id in db.registry && db.registry[id].row.lastSeqno == last
    {
      ghost var was := db.Value();
      ghost var t := Inserted(was, id, last, rows);
      if EndsInColumn(first, payloads) {
        AppendedIsGrown(cut, was, id, epoch, first, payloads);
        GrownCache(appends, was, t);
      }
      var reg := db.registry[id];
      var name := sql.At(reg.row.curSlot);
      db.registry := db.registry[id := reg.(row := reg.row.(lastSeqno := last))];
      db.tables := db.tables[name := db.tables[name] + rows];
      assert db.Value() == t;
    }

    /** `commits` is whether the reclaim gets its locks and its transaction commits; it is best-effort either way. */
    method Trim(id: LogId, upTo: nat, commits: bool)
      requires Valid() && Casts.Word(upTo)
      modifies db
      ensures Valid()
      ensures var t := TrimmedDb(old(db.Value()), id, upTo);
              db.Value() == if id in t.registry && upTo >= FIRST_SEQNO && commits
                            then Reclaimed(t, id, t.registry[id].row) else t
    {
      if upTo < FIRST_SEQNO || id !in db.registry {
        return;
      }
      var row := db.registry[id].row;
      Casts.TrimCast(row.trimUpto, row.lastSeqno, upTo);
      row := row.(trimUpto := Max(row.trimUpto, Min(ToInt64(upTo), row.lastSeqno)));
      TrimRow(db.Value(), id, upTo, row);
      SetRow(id, row, TrimmedDb(db.Value(), id, upTo));
      Reclaim(id, row, commits);
    }

    method Reclaim(id: LogId, gate: Row, commits: bool)
      requires Valid() && id in db.registry
      modifies db
      ensures Valid()
      ensures db.Value() == if commits then Reclaimed(old(db.Value()), id, gate) else old(db.Value())
    {
      var (wantTruncate, wantRotate) := gate.ReclaimSteps(true);
      if (!wantTruncate && !wantRotate) || !commits {
        return;
      }
      ghost var was := db.Value();
      ReclaimedIsGrown(was, id, gate);
      GrownCache(appends, was, Reclaimed(was, id, gate));
      var reg := db.registry[id];
      var now := reg.row;
      var (doTruncate, doRotate) := now.ReclaimSteps(wantTruncate);
      if doTruncate {
        db.tables := db.tables[EntriesTable(reg.ordinal, now.PrevSlot()) := multiset{}];
        now := now.Cleared();
      }
      if doRotate {
        now := now.Rotated();
      }
      db.registry := db.registry[id := reg.(row := now)];
      assert db.Value() == Reclaimed(was, id, gate);
    }

    /** One past the registry row's last seqno, whatever has been trimmed. */
    method NextSeqno(id: LogId) returns (next: Option<nat>)
      requires Valid()
      modifies this`appends
      ensures Valid() && next == if id in db.registry then Some(db.registry[id].row.lastSeqno + 1) else None
    {
      if id !in db.registry {
        return None;
      }
      var _ := Remember(id, db.registry[id].ordinal);
      return Some(db.registry[id].row.lastSeqno + 1);
    }

    /**
     `rows` is the answer of the row query, asked with the window's ends cast to int64.
     On a database that any calls of any Stores have made (`calls`) the entries returned
     are those of the window above the watermark, whoever appended them.
     */
    method ReadFrom(id: LogId, from: nat, limit: int, rows: seq<EntryRow>, ghost calls: seq<Call>) returns (r: ReadReply)
      requires Valid() && Casts.Word(from) && limit < TWO63
      requires id in db.registry && limit > 0 ==>
                 Ordered(rows) && Returned(rows, db.Value().View(id), Reads.WindowLo(db.registry[id].row, from), limit)
      modifies this`appends
      ensures Valid()
      ensures r == if limit <= 0 then BadLimit
                   else if id !in db.registry then Read(Entries([])) else Read(Assemble(rows, []))
      ensures id in db.registry && limit > 0 && db.Value() == Made(calls).db ==>
                ServesTheLog(calls, id, db.registry[id].row, from, limit, rows)
    {
      if limit <= 0 {
        return BadLimit;
      }
      if id !in db.registry {
        return Read(Entries([]));
      }
      var _ := Remember(id, db.registry[id].ordinal);
      Serves(db.Value(), calls, id, from, limit, rows);
      var reading := ReadRows(rows);
      return Read(reading);
    }
  }

  /** The watermark's UPDATE, cast and all. */
  lemma {:induction false} TrimRow(db: Db, id: LogId, upTo: nat, row: Row)
    requires id in db.registry && Casts.Word(upTo) && upTo >= FIRST_SEQNO && RowInRange(db.registry[id].row)
    requires var was := db.registry[id].row;
             row == was.(trimUpto := Max(was.trimUpto, Min(ToInt64(upTo), was.lastSeqno)))
    ensures TrimmedDb(db, id, upTo) == db.WithRow(id, row) && RowInRange(row)
  {
    var was := db.registry[id].row;
    Casts.TrimCast(was.trimUpto, was.lastSeqno, upTo);
  }

  /** What BETWEEN selects of both tables. */
  ghost predicate Returned(rows: seq<EntryRow>, s: State, lo: nat, limit: nat) {
    forall row :: multiset(rows)[row] == if Casts.Selected(row.seqno, lo, limit) then (s.slot0 + s.slot1)[row] else 0
  }

  /** Rows carry the seqnos of entries, and those are what the column can hold. */
  ghost predicate NoZeroRows(s: State) {
    forall row :: row in s.slot0 + s.slot1 ==> Casts.Entry(row.seqno)
  }

  /** In a clear window the statement selects what the read means. */
  lemma {:induction false} ClearWindow(rows: seq<EntryRow>, s: State, lo: nat, limit: nat)
    requires Ordered(rows) && Returned(rows, s, lo, limit) && NoZeroRows(s)
    requires FIRST_SEQNO <= lo < TWO64 && 0 < limit < TWO63 && Casts.Clear(lo, limit)
    ensures Reads.QueryReturns(rows, s, lo, lo + limit - 1)
  {
    Casts.WindowCast(lo, limit);
    forall row: EntryRow
      ensures multiset(rows)[row] == if lo <= row.seqno <= lo + limit - 1 then (s.slot0 + s.slot1)[row] else 0
    {
      assert Casts.Entry(row.seqno) ==> (Casts.Selected(row.seqno, lo, limit) <==> Casts.Meant(row.seqno, lo, limit));
    }
  }

  // ---------- every state the calls can make ----------

  /** The state any number of Stores have made of an empty schema. */
  ghost function Made(calls: seq<Call>): System {
    SystemRun(Laid, System(EMPTY, map[]), calls)
  }

  /** The operations that reached a log, and the abstract log they make. */
  ghost function OpsOf(calls: seq<Call>, id: LogId): seq<Op> {
    Addressed(Laid, System(EMPTY, map[]), calls, id)
  }

  ghost function LogOf(calls: seq<Call>, id: LogId): A.Log {
    Refinement.Told(OpsOf(calls, id))
  }

  /**
   What a Store's calls do to the database is what the calls of module Registry do,
   through whichever Store they go.
   */
  lemma {:induction false} CallsAreTheRegistrys(sys: System, store: StoreId, id: LogId)
    requires Inv(sys) && id in sys.db.registry
    ensures forall epoch: nat :: FencedDb(sys.db, id, epoch) == Next(Laid, sys, Do(store, id, Ring.Fence(epoch))).db
    ensures forall upTo: nat :: TrimmedDb(sys.db, id, upTo) == Next(Laid, sys, Do(store, id, Ring.Trim(upTo))).db
    ensures forall gate: Row :: Reclaimed(sys.db, id, gate) == Next(Laid, sys, Do(store, id, Ring.Reclaim(gate))).db
  {
    var reg := sys.db.registry[id];
    assert sys.db.registry[id := reg.(row := reg.row)] == sys.db.registry;
  }

  lemma {:induction false} AppendIsTheRegistrys(cut: Cut, sys: System, store: StoreId, id: LogId, epoch: nat, first: nat, payloads: seq<Bytes>)
    requires Inv(sys) && id in sys.db.registry && EndsInColumn(first, payloads)
    ensures AppendedDb(cut, sys.db, id, epoch, first, payloads)
         == Next(cut, sys, Do(store, id, Ring.Append(epoch, first, payloads))).db
  {
    CachedIsOwn(cut, sys, Do(store, id, Ring.Append(epoch, first, payloads)));
    AppendIsTheRings(cut, sys.db, id, epoch, first, payloads);
  }

  /** A log of the database is the ring its operations make. */
  lemma {:induction false} LogIsItsRun(calls: seq<Call>, id: LogId)
    requires id in Made(calls).db.registry
    ensures Made(calls).db.Valid() && Made(calls).db.View(id) == Refinement.After(Laid, OpsOf(calls, id))
  {
    LogsShareNothing(Laid, calls, id);
  }

  /**
   Fencing again at one's own epoch, as a restart does: after a fence of the log at `e`
   that took effect, and any operations since, it is Ok exactly while no higher epoch
   has fenced the log.
   */
  lemma {:induction false} OwnFenceCanBeRepeated(calls: seq<Call>, id: LogId, n: nat)
    requires id in Made(calls).db.registry && n < |OpsOf(calls, id)|
    requires var ops := OpsOf(calls, id); ops[n].Fence? && Admits(Refinement.After(Laid, ops[..n]).row, ops[n])
    ensures var ops := OpsOf(calls, id);
            FenceReply(Made(calls).db, id, ops[n].epoch) == Ok
            <==> !A.FencesAbove(Refinement.CallsOf(ops[n + 1..]), ops[n].epoch)
  {
    LogIsItsRun(calls, id);
    OwnerAfterFence(Laid, OpsOf(calls, id), n);
  }

  lemma {:induction false} OwnerAfterFence(cut: Cut, ops: seq<Op>, n: nat)
    requires n < |ops| && ops[n].Fence? && Admits(Refinement.After(cut, ops[..n]).row, ops[n])
    ensures var e, owner := ops[n].epoch, Refinement.After(cut, ops).row.epoch;
            0 < e < TWO63 && e <= owner && (owner == e <==> !A.FencesAbove(Refinement.CallsOf(ops[n + 1..]), e))
  {
    Refinement.EveryRunRefines(cut, ops[..n]);
    Refinement.EveryRunRefines(cut, ops);
    Reads.ToldNext(ops, n);
    Reads.ToldSplit(ops, n + 1);
    A.OwnerFollowsFences(Refinement.Told(ops[..n + 1]), Refinement.CallsOf(ops[n + 1..]), ops[n].epoch);
  }

  lemma {:induction false} RowsAreEntries(ops: seq<Op>)
    ensures NoZeroRows(Refinement.After(Laid, ops))
    ensures Refinement.After(Laid, ops).row.trimUpto < TWO63
  {
    Refinement.EveryRunRefines(Laid, ops);
    Refinement.LaidIsTagged();
    RefinedRowsAreEntries(Laid, Refinement.After(Laid, ops), Refinement.Told(ops), Refinement.Older(Laid, ops));
  }

  lemma {:induction false} RefinedRowsAreEntries(cut: Cut, s: State, a: A.Log, prevLo: nat)
    requires Refinement.Tagged(cut) && Refinement.Refines(cut, s, a, prevLo)
    ensures NoZeroRows(s) && s.row.trimUpto < TWO63
  {
    Refinement.TablesHoldOneRun(cut, s, a, prevLo);
    forall row | row in s.slot0 + s.slot1
      ensures Casts.Entry(row.seqno)
    {
      Refinement.HeldSeqnos(cut, a.entries, prevLo, |a.entries|, row);
    }
  }

  /** What is read in a clear window is what the log holds of it. */
  ghost predicate ServesTheLog(calls: seq<Call>, id: LogId, row: Row, from: nat, limit: nat, rows: seq<EntryRow>) {
    var lo := Reads.WindowLo(row, from);
    Casts.Clear(lo, limit) ==> Reads.ReadsAs(rows, Reads.Range(LogOf(calls, id).entries, lo, lo + limit - 1))
  }

  lemma {:induction false} Serves(db: Db, calls: seq<Call>, id: LogId, from: nat, limit: nat, rows: seq<EntryRow>)
    requires Casts.Word(from) && 0 < limit < TWO63 && id in db.registry && db.Valid() && Ordered(rows)
    requires Returned(rows, db.View(id), Reads.WindowLo(db.registry[id].row, from), limit)
    ensures db == Made(calls).db ==> ServesTheLog(calls, id, db.registry[id].row, from, limit, rows)
  {
    if db == Made(calls).db && Casts.Clear(Reads.WindowLo(db.registry[id].row, from), limit) {
      ReadsTheLog(calls, id, from, limit, rows);
    }
  }

  /** The read of any state the calls can make returns exactly what the log holds of its window. */
  lemma {:induction false} ReadsTheLog(calls: seq<Call>, id: LogId, from: nat, limit: nat, rows: seq<EntryRow>)
    requires Casts.Word(from) && 0 < limit < TWO63 && id in Made(calls).db.registry && Made(calls).db.Valid()
    requires var s := Made(calls).db.View(id);
             var lo := Reads.WindowLo(s.row, from);
             Ordered(rows) && Returned(rows, s, lo, limit) && Casts.Clear(lo, limit)
    ensures var lo := Reads.WindowLo(Made(calls).db.View(id).row, from);
            && lo == Max(Max(from, 1), LogOf(calls, id).trimmed + 1)
            && Reads.ReadsAs(rows, Reads.Range(LogOf(calls, id).entries, lo, lo + limit - 1))
  {
    LogIsItsRun(calls, id);
    var ops := OpsOf(calls, id);
    var s := Refinement.After(Laid, ops);
    RowsAreEntries(ops);
    ClearWindow(rows, s, Reads.WindowLo(s.row, from), limit);
    Reads.QuietRead(ops, from, limit, rows);
  }

  /**
   Readback. An entry of an append that took effect, however long ago, through whichever
   Store and whoever owns the log now, is in every read whose window it is in, at its
   place, unless a trim has passed it or the read reports a lost chunk of an oversized
   entry in the window.
   */
  lemma {:induction false} AckedIsReadBack(calls: seq<Call>, id: LogId, n: nat, k: nat, from: nat, limit: nat, rows: seq<EntryRow>)
    requires Casts.Word(from) && 0 < limit < TWO63 && id in Made(calls).db.registry && Made(calls).db.Valid()
    requires var s := Made(calls).db.View(id);
             var lo := Reads.WindowLo(s.row, from);
             Ordered(rows) && Returned(rows, s, lo, limit) && Casts.Clear(lo, limit)
    requires var ops := OpsOf(calls, id);
             && n < |ops| && ops[n].Append? && k < |ops[n].payloads|
             && Admits(Refinement.After(Laid, ops[..n]).row, ops[n])
    requires var seqno := OpsOf(calls, id)[n].first + k;
             var lo := Reads.WindowLo(Made(calls).db.View(id).row, from);
             from <= seqno < lo + limit && Made(calls).db.View(id).row.trimUpto < seqno
    ensures var op := OpsOf(calls, id)[n];
            var lo := Reads.WindowLo(Made(calls).db.View(id).row, from);
            var got := Assemble(rows, []);
            got.LostChunk?
            || (0 <= op.first + k - lo < |got.entries|
                && got.entries[op.first + k - lo] == Entry(op.first + k, op.epoch, op.payloads[k]))
  {
    ReadsTheLog(calls, id, from, limit, rows);
    Reads.AckedStays(Laid, OpsOf(calls, id), n, k);
  }
}
