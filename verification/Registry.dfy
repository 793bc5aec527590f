/**
 Many logs in one schema, and any number of Stores over it (schema.go, and the
 statement cache of store.go). Logs share nothing: the whole database is the
 product of the rings of its logs, because a table's name determines its log and
 no cached statement ever names another log's tables.
 */
module Registry {
  import opened Words
  import opened Rules
  import opened Codec
  import opened Ring

  type LogId = string
  type Name = string

  // ---------- table names ----------

  const ENTRIES_PREFIX: string := "pgnotch_entries_"

  function Digit(d: nat): char
    requires d < 10
  {
    '0' + d as char
  }

  function Decimal(n: nat): string {
    if n < 10 then [Digit(n)] else Decimal(n / 10) + [Digit(n % 10)]
  }

  function Value(s: string): int {
    if s == [] then 0 else 10 * Value(s[..|s| - 1]) + (s[|s| - 1] as int - '0' as int)
  }

  function EntriesTable(ordinal: nat, slot: Slot): Name {
    ENTRIES_PREFIX + Decimal(ordinal) + "_" + Decimal(slot)
  }

  lemma {:induction false} DecimalReadsBack(n: nat)
    ensures Value(Decimal(n)) == n
  {
    if n < 10 {
      assert Value([]) == 0;
      assert [Digit(n)][..0] == [];
    } else {
      DecimalReadsBack(n / 10);
      var s := Decimal(n);
      assert s[..|s| - 1] == Decimal(n / 10);
    }
  }

  /** A table's name determines its log and its slot. */
  lemma {:induction false} NamesAreInjective(o1: nat, s1: Slot, o2: nat, s2: Slot)
    requires EntriesTable(o1, s1) == EntriesTable(o2, s2)
    ensures o1 == o2 && s1 == s2
  {
    var n1, n2 := EntriesTable(o1, s1), EntriesTable(o2, s2);
    var d1, d2 := Decimal(o1), Decimal(o2);
    var p := |ENTRIES_PREFIX|;
    assert n1[|n1| - 1] == Digit(s1) && n2[|n2| - 1] == Digit(s2);
    assert n1[p..|n1| - 2] == d1 && n2[p..|n2| - 2] == d2;
    DecimalReadsBack(o1);
    DecimalReadsBack(o2);
  }

  // ---------- the database ----------

  datatype Registered = Registered(ordinal: nat, row: Row)

  /** An append statement is, for what it does, the two tables it names. */
  datatype Statement = Statement(slot0: Name, slot1: Name) {
    function At(slot: Slot): Name {
      if slot == 0 then slot0 else slot1
    }
  }

  function AppendSQL(ordinal: nat): Statement {
    Statement(EntriesTable(ordinal, 0), EntriesTable(ordinal, 1))
  }

  /** The registry, the entry tables, and the identity the next ordinal comes from. */
  datatype Db = Db(registry: map<LogId, Registered>, tables: map<Name, Table>, nextOrdinal: nat) {

    ghost predicate Valid() {
      && (forall id :: id in registry ==> registry[id].ordinal < nextOrdinal)
      && (forall id :: id in registry ==> HasTables(registry[id].ordinal))
      && (forall a, b :: a in registry && b in registry && a != b ==> registry[a].ordinal != registry[b].ordinal)
      && (forall o: nat, slot: Slot :: o >= nextOrdinal ==> EntriesTable(o, slot) !in tables)
    }

    predicate HasTables(ordinal: nat) {
      EntriesTable(ordinal, 0) in tables && EntriesTable(ordinal, 1) in tables
    }

    /** One log of the database, as module Ring has it. */
    function View(id: LogId): State
      requires id in registry && HasTables(registry[id].ordinal)
    {
      var o := registry[id].ordinal;
      State(registry[id].row, tables[EntriesTable(o, 0)], tables[EntriesTable(o, 1)])
    }

    function WithRow(id: LogId, row: Row): Db
      requires id in registry
    {
      this.(registry := registry[id := registry[id].(row := row)])
    }
  }

  const EMPTY := Db(map[], map[], 1)

  /** An ordinal is drawn for every id offered, used or not; existing logs are left exactly as they are. */
  function Created(db: Db, id: LogId): Db {
    var o := db.nextOrdinal;
    if id in db.registry then db.(nextOrdinal := o + 1) else
      Db(db.registry[id := Registered(o, CREATED.row)],
         db.tables[EntriesTable(o, 0) := multiset{}][EntriesTable(o, 1) := multiset{}], o + 1)
  }

  /** The append statement, as the server runs it: the row by log id, the rows into the table the statement names. */
  function Appended(cut: Cut, db: Db, id: LogId, sql: Statement, op: Op): Db
    requires op.Append? && id in db.registry
  {
    var row := db.registry[id].row;
    if !Admits(row, op) || sql.At(row.curSlot) !in db.tables then db else
      var name := sql.At(row.curSlot);
      db.WithRow(id, row.(lastSeqno := op.first + |op.payloads| - 1))
      .(tables := db.tables[name := db.tables[name] + BatchRows(cut, op.epoch, op.first, op.payloads)])
  }

  /** A fence or a trim: one UPDATE of the row. */
  function Updated(cut: Cut, db: Db, id: LogId, op: Op): Db
    requires id in db.registry && (op.Fence? || op.Trim?)
  {
    db.WithRow(id, Step(cut, State(db.registry[id].row, multiset{}, multiset{}), op).row)
  }

  /** Reclaim reaches the log by its ordinal alone: the tables by name, the row by the ordinal column. */
  function Reclaimed(db: Db, id: LogId, gate: Row): Db
    requires id in db.registry && db.HasTables(db.registry[id].ordinal)
  {
    var o, row := db.registry[id].ordinal, db.registry[id].row;
    if !Admits(row, Reclaim(gate)) then db else
      var (truncate, rotate) := row.ReclaimSteps(gate.ReclaimSteps(true).0);
      var cleared := if truncate then row.Cleared() else row;
      var emptied := if truncate then db.(tables := db.tables[EntriesTable(o, row.PrevSlot()) := multiset{}]) else db;
      emptied.WithRow(id, if rotate then cleared.Rotated() else cleared)
  }

  // ---------- stores and their caches ----------

  type StoreId = nat
  type Cache = map<LogId, Statement>

  datatype System = System(db: Db, caches: map<StoreId, Cache>)

  datatype Call =
    | Create(id: LogId)
    | Do(store: StoreId, id: LogId, op: Op)  // Fence, Append, Trim or reclaim
    | Look(store: StoreId, id: LogId)        // NextSeqno or ReadFrom

  function CacheOf(sys: System, store: StoreId): Cache {
    if store in sys.caches then sys.caches[store] else map[]
  }

  /** remember: the entry that is there stays; a statement is built only from the registry's ordinal. */
  function Remember(cache: Cache, id: LogId, ordinal: nat): Cache {
    if id in cache then cache else cache[id := AppendSQL(ordinal)]
  }

  function Remembered(sys: System, store: StoreId, id: LogId): System {
    if id !in sys.db.registry then sys else
      sys.(caches := sys.caches[store := Remember(CacheOf(sys, store), id, sys.db.registry[id].ordinal)])
  }

  function Next(cut: Cut, sys: System, call: Call): System
    requires sys.db.Valid()
  {
    match call
    case Create(id) => sys.(db := Created(sys.db, id))
    case Look(store, id) => Remembered(sys, store, id)
    case Do(store, id, op) =>
      if id !in sys.db.registry then sys else
        (match op
         case Fence(_) =>
           var t := sys.(db := Updated(cut, sys.db, id, op));
           if Admits(sys.db.registry[id].row, op) then Remembered(t, store, id) else t
         case Trim(_) => sys.(db := Updated(cut, sys.db, id, op))
         case Append(_, _, _) =>
           var known := Remembered(sys, store, id);
           known.(db := Appended(cut, sys.db, id, CacheOf(known, store)[id], op))
         case Reclaim(gate) => sys.(db := Reclaimed(sys.db, id, gate)))
  }

  // ---------- one log at a time ----------

  /** `t` differs from `db` at most in the row of one log and in the tables of its ordinal. */
  ghost predicate OnlyTouches(db: Db, t: Db, id: LogId)
    requires id in db.registry
  {
    var o := db.registry[id].ordinal;
    && t.nextOrdinal == db.nextOrdinal && t.registry.Keys == db.registry.Keys && t.tables.Keys == db.tables.Keys
    && (forall x :: x in db.registry ==> t.registry[x].ordinal == db.registry[x].ordinal)
    && (forall x :: x in db.registry && x != id ==> t.registry[x].row == db.registry[x].row)
    && (forall n :: n in db.tables && n != EntriesTable(o, 0) && n != EntriesTable(o, 1) ==> t.tables[n] == db.tables[n])
  }

  lemma {:induction false} TouchedStaysValid(db: Db, t: Db, id: LogId)
    requires db.Valid() && id in db.registry && OnlyTouches(db, t, id)
    ensures t.Valid()
  {
    assert forall x :: x in t.registry <==> x in db.registry;
    assert forall n :: n in t.tables <==> n in db.tables;
  }

  lemma {:induction false} OthersUntouched(db: Db, t: Db, id: LogId, other: LogId)
    requires db.Valid() && t.Valid() && id in db.registry && OnlyTouches(db, t, id)
    requires other in db.registry && other != id
    ensures other in t.registry && t.View(other) == db.View(other)
  {
    var o, p := db.registry[id].ordinal, db.registry[other].ordinal;
    assert o != p;
    forall s1: Slot, s2: Slot
      ensures EntriesTable(o, s1) != EntriesTable(p, s2)
    {
      if EntriesTable(o, s1) == EntriesTable(p, s2) {
        NamesAreInjective(o, s1, p, s2);
        assert false;
      }
    }
    assert other in t.registry.Keys;
  }

  lemma {:induction false} SlotNamesDiffer(o: nat)
    ensures EntriesTable(o, 0) != EntriesTable(o, 1)
  {
    if EntriesTable(o, 0) == EntriesTable(o, 1) {
      NamesAreInjective(o, 0, o, 1);
      assert false;
    }
  }

  /** Changing one log's row and one of its own tables is all an append or a reclaim does to the database. */
  function Changed(db: Db, id: LogId, row: Row, slot: Slot, table: Table): Db
    requires id in db.registry
  {
    db.WithRow(id, row).(tables := db.tables[EntriesTable(db.registry[id].ordinal, slot) := table])
  }

  lemma {:induction false} ChangedTouches(db: Db, id: LogId, row: Row, slot: Slot, table: Table)
    requires id in db.registry && db.HasTables(db.registry[id].ordinal)
    ensures OnlyTouches(db, Changed(db, id, row, slot, table), id)
  {
    assert EntriesTable(db.registry[id].ordinal, slot) in db.tables;
  }

  lemma {:induction false} ChangedView(db: Db, id: LogId, row: Row, slot: Slot, table: Table)
    requires id in db.registry && db.HasTables(db.registry[id].ordinal)
    ensures var t := Changed(db, id, row, slot, table);
            t.HasTables(t.registry[id].ordinal) && t.View(id) == db.View(id).With(slot, table).(row := row)
  {
    SlotNamesDiffer(db.registry[id].ordinal);
  }

  lemma {:induction false} ChangedKeeps(db: Db, id: LogId, row: Row, slot: Slot, table: Table)
    requires db.Valid() && id in db.registry
    ensures var t := Changed(db, id, row, slot, table);
            OnlyTouches(db, t, id) && t.Valid() && t.View(id) == db.View(id).With(slot, table).(row := row)
  {
    ChangedTouches(db, id, row, slot, table);
    TouchedStaysValid(db, Changed(db, id, row, slot, table), id);
    ChangedView(db, id, row, slot, table);
  }

  lemma {:induction false} AppendIsChange(cut: Cut, db: Db, id: LogId, op: Op)
    requires id in db.registry && db.HasTables(db.registry[id].ordinal) && op.Append? && Admits(db.registry[id].row, op)
    ensures var row := db.registry[id].row;
            Appended(cut, db, id, AppendSQL(db.registry[id].ordinal), op)
            == Changed(db, id, row.(lastSeqno := op.first + |op.payloads| - 1), row.curSlot,
                       db.View(id).At(row.curSlot) + BatchRows(cut, op.epoch, op.first, op.payloads))
  {
  }

  lemma {:induction false} AppendTouches(cut: Cut, db: Db, id: LogId, op: Op)
    requires db.Valid() && id in db.registry && op.Append?
    ensures var t := Appended(cut, db, id, AppendSQL(db.registry[id].ordinal), op);
            OnlyTouches(db, t, id) && t.Valid() && t.View(id) == Step(cut, db.View(id), op)
  {
    var row := db.registry[id].row;
    if Admits(row, op) {
      AppendIsChange(cut, db, id, op);
      ChangedKeeps(db, id, row.(lastSeqno := op.first + |op.payloads| - 1), row.curSlot,
                   db.View(id).At(row.curSlot) + BatchRows(cut, op.epoch, op.first, op.payloads));
    }
  }

  lemma {:induction false} UpdateTouches(cut: Cut, db: Db, id: LogId, op: Op)
    requires db.Valid() && id in db.registry && (op.Fence? || op.Trim?)
    ensures var t := Updated(cut, db, id, op);
            OnlyTouches(db, t, id) && t.Valid() && t.View(id) == Step(cut, db.View(id), op)
  {
    TouchedStaysValid(db, Updated(cut, db, id, op), id);
  }

  lemma {:induction false} RowKeeps(db: Db, id: LogId, row: Row)
    requires db.Valid() && id in db.registry
    ensures var t := db.WithRow(id, row);
            OnlyTouches(db, t, id) && t.Valid() && t.View(id) == db.View(id).(row := row)
  {
    TouchedStaysValid(db, db.WithRow(id, row), id);
  }

  lemma {:induction false} ReclaimTouches(cut: Cut, db: Db, id: LogId, gate: Row)
    requires db.Valid() && id in db.registry
    ensures var t := Reclaimed(db, id, gate);
            OnlyTouches(db, t, id) && t.Valid() && t.View(id) == Step(cut, db.View(id), Reclaim(gate))
  {
    var row := db.registry[id].row;
    if Admits(row, Reclaim(gate)) {
      ReclaimIsChange(cut, db, id, gate);
      var after := Step(cut, db.View(id), Reclaim(gate)).row;
      if row.ReclaimSteps(gate.ReclaimSteps(true).0).0 {
        ChangedKeeps(db, id, after, row.PrevSlot(), multiset{});
      } else {
        RowKeeps(db, id, after);
      }
    }
  }

  lemma {:induction false} ReclaimIsChange(cut: Cut, db: Db, id: LogId, gate: Row)
    requires id in db.registry && db.HasTables(db.registry[id].ordinal) && Admits(db.registry[id].row, Reclaim(gate))
    ensures var row, s := db.registry[id].row, db.View(id);
            var t := Step(cut, s, Reclaim(gate));
            if row.ReclaimSteps(gate.ReclaimSteps(true).0).0
            then && Reclaimed(db, id, gate) == Changed(db, id, t.row, row.PrevSlot(), multiset{})
                 && t == s.With(row.PrevSlot(), multiset{}).(row := t.row)
            else Reclaimed(db, id, gate) == db.WithRow(id, t.row) && t == s.(row := t.row)
  {
  }

  lemma {:induction false} CreatedIsValid(db: Db, id: LogId)
    requires db.Valid()
    ensures Created(db, id).Valid()
  {
    var t, o := Created(db, id), db.nextOrdinal;
    forall p: nat, slot: Slot | p > o
      ensures EntriesTable(p, slot) !in t.tables
    {
      NewNamesAreNew(o, p, slot);
    }
    forall x | x in t.registry
      ensures t.HasTables(t.registry[x].ordinal)
    {
      assert x in db.registry ==> db.HasTables(db.registry[x].ordinal);
    }
  }

  lemma {:induction false} CreateAdds(db: Db, id: LogId, other: LogId)
    requires db.Valid()
    ensures var t := Created(db, id);
            && t.Valid() && id in t.registry
            && (id !in db.registry ==> t.View(id) == CREATED)
            && (other in db.registry ==>
                  other in t.registry && t.registry[other] == db.registry[other] && t.View(other) == db.View(other))
  {
    CreatedIsValid(db, id);
    SlotNamesDiffer(db.nextOrdinal);
    if other in db.registry {
      NewNamesAreNew(db.nextOrdinal, db.registry[other].ordinal, 0);
      NewNamesAreNew(db.nextOrdinal, db.registry[other].ordinal, 1);
    }
  }

  lemma {:induction false} NewNamesAreNew(o: nat, p: nat, slot: Slot)
    requires o != p
    ensures EntriesTable(p, slot) != EntriesTable(o, 0) && EntriesTable(p, slot) != EntriesTable(o, 1)
  {
    forall s: Slot
      ensures EntriesTable(p, slot) != EntriesTable(o, s)
    {
      if EntriesTable(p, slot) == EntriesTable(o, s) {
        NamesAreInjective(p, slot, o, s);
        assert false;
      }
    }
  }

  // ---------- every reachable state ----------

  /** Every cached statement is the one of its log's own ordinal. */
  ghost predicate CachesAgree(sys: System) {
    forall store, id :: store in sys.caches && id in sys.caches[store] ==>
      id in sys.db.registry && sys.caches[store][id] == AppendSQL(sys.db.registry[id].ordinal)
  }

  ghost predicate Inv(sys: System) {
    sys.db.Valid() && CachesAgree(sys)
  }

  /** The operation a call performs on a log, if any. */
  function OpsOn(sys: System, call: Call, id: LogId): seq<Op> {
    if call.Do? && call.id == id && id in sys.db.registry then [call.op] else []
  }

  lemma {:induction false} RememberAgrees(sys: System, store: StoreId, id: LogId)
    requires CachesAgree(sys)
    ensures CachesAgree(Remembered(sys, store, id))
    ensures id in sys.db.registry ==>
              var t := Remembered(sys, store, id);
              id in CacheOf(t, store) && CacheOf(t, store)[id] == AppendSQL(sys.db.registry[id].ordinal)
  {
    var t := Remembered(sys, store, id);
    forall s, x | s in t.caches && x in t.caches[s]
      ensures x in t.db.registry && t.caches[s][x] == AppendSQL(t.db.registry[x].ordinal)
    {
      if s == store && x in CacheOf(sys, store) {
        assert store in sys.caches && x in sys.caches[store];
      }
    }
  }

  /** A registry that has only grown keeps every cache right: an ordinal is assigned once and never changes. */
  lemma {:induction false} GrownRegistryAgrees(sys: System, db: Db)
    requires CachesAgree(sys)
    requires forall id :: id in sys.db.registry ==>
               id in db.registry && db.registry[id].ordinal == sys.db.registry[id].ordinal
    ensures CachesAgree(sys.(db := db))
  {
  }

  /** The database part of a call on an existing log. */
  function DoneDb(cut: Cut, db: Db, id: LogId, op: Op): Db
    requires db.Valid() && id in db.registry
  {
    match op
    case Append(_, _, _) => Appended(cut, db, id, AppendSQL(db.registry[id].ordinal), op)
    case Reclaim(gate) => Reclaimed(db, id, gate)
    case _ => Updated(cut, db, id, op)
  }

  lemma {:induction false} DoTouches(cut: Cut, db: Db, id: LogId, op: Op)
    requires db.Valid() && id in db.registry
    ensures var t := DoneDb(cut, db, id, op);
            OnlyTouches(db, t, id) && t.Valid() && t.View(id) == Step(cut, db.View(id), op)
  {
    match op
    case Append(_, _, _) => AppendTouches(cut, db, id, op);
    case Reclaim(gate) => ReclaimTouches(cut, db, id, gate);
    case _ => UpdateTouches(cut, db, id, op);
  }

  lemma {:induction false} DoneAgrees(cut: Cut, sys: System, id: LogId, op: Op)
    requires sys.db.Valid() && CachesAgree(sys) && id in sys.db.registry
    ensures CachesAgree(sys.(db := DoneDb(cut, sys.db, id, op)))
  {
    var t := DoneDb(cut, sys.db, id, op);
    DoTouches(cut, sys.db, id, op);
    forall x | x in sys.db.registry
      ensures x in t.registry && t.registry[x].ordinal == sys.db.registry[x].ordinal
    {
      assert x in t.registry.Keys;
    }
    GrownRegistryAgrees(sys, t);
  }

  /** The statement an append runs is the cached one, which is its own log's. */
  lemma {:induction false} CachedIsOwn(cut: Cut, sys: System, call: Call)
    requires Inv(sys) && call.Do? && call.id in sys.db.registry
    ensures Next(cut, sys, call).db == DoneDb(cut, sys.db, call.id, call.op)
  {
    if call.op.Append? {
      RememberAgrees(sys, call.store, call.id);
    }
  }

  /** A call goes through the cache of its store and still does what its own log's statement does. */
  lemma {:induction false} DoKeeps(cut: Cut, sys: System, call: Call)
    requires Inv(sys) && call.Do? && call.id in sys.db.registry
    ensures Inv(Next(cut, sys, call)) && Next(cut, sys, call).db == DoneDb(cut, sys.db, call.id, call.op)
  {
    CachedIsOwn(cut, sys, call);
    DoTouches(cut, sys.db, call.id, call.op);
    if call.op.Append? {
      RememberAgrees(sys, call.store, call.id);
      DoneAgrees(cut, Remembered(sys, call.store, call.id), call.id, call.op);
    } else {
      DoneAgrees(cut, sys, call.id, call.op);
      RememberAgrees(sys.(db := DoneDb(cut, sys.db, call.id, call.op)), call.store, call.id);
    }
  }

  lemma {:induction false} CallKeepsInv(cut: Cut, sys: System, call: Call)
    requires Inv(sys)
    ensures Inv(Next(cut, sys, call))
  {
    match call
    case Create(id) => CreateKeeps(sys, id);
    case Look(store, id) => RememberAgrees(sys, store, id);
    case Do(_, id, _) =>
      if id in sys.db.registry {
        DoKeeps(cut, sys, call);
      }
  }

  lemma {:induction false} DoIsolates(cut: Cut, sys: System, call: Call, id: LogId)
    requires Inv(sys) && call.Do? && call.id in sys.db.registry && id in sys.db.registry
    ensures var t := DoneDb(cut, sys.db, call.id, call.op);
            t.Valid() && id in t.registry && t.View(id) == Run(cut, sys.db.View(id), OpsOn(sys, call, id))
  {
    DoTouches(cut, sys.db, call.id, call.op);
    if id == call.id {
      assert [call.op][1..] == [];
    } else {
      OthersUntouched(sys.db, DoneDb(cut, sys.db, call.id, call.op), call.id, id);
    }
  }

  /** One call: the log it names takes one step of its ring, and no other log is touched. */
  lemma {:induction false} CallsAreIsolated(cut: Cut, sys: System, call: Call, id: LogId)
    requires Inv(sys)
    ensures Inv(Next(cut, sys, call))
    ensures id in sys.db.registry ==>
              var t := Next(cut, sys, call).db;
              id in t.registry && t.View(id) == Run(cut, sys.db.View(id), OpsOn(sys, call, id))
    ensures id !in sys.db.registry ==>
              var t := Next(cut, sys, call).db;
              id in t.registry ==> t.View(id) == CREATED
  {
    CallKeepsInv(cut, sys, call);
    match call
    case Create(other) =>
      CreateAdds(sys.db, other, id);
    case Look(_, _) =>
    case Do(_, other, op) =>
      if other in sys.db.registry {
        CachedIsOwn(cut, sys, call);
        DoTouches(cut, sys.db, other, op);
        if id in sys.db.registry {
          DoIsolates(cut, sys, call, id);
        }
      }
  }

  lemma {:induction false} CreateKeeps(sys: System, id: LogId)
    requires Inv(sys)
    ensures Inv(sys.(db := Created(sys.db, id)))
  {
    CreateAdds(sys.db, id, id);
    forall x | x in sys.db.registry
      ensures x in Created(sys.db, id).registry && Created(sys.db, id).registry[x].ordinal == sys.db.registry[x].ordinal
    {
      CreateAdds(sys.db, id, x);
    }
    GrownRegistryAgrees(sys, Created(sys.db, id));
  }

  // ---------- whole runs ----------

  /** A run of calls; a state no run reaches stops it. */
  ghost function SystemRun(cut: Cut, sys: System, calls: seq<Call>): System
    decreases |calls|
  {
    if calls == [] || !sys.db.Valid() then sys else SystemRun(cut, Next(cut, sys, calls[0]), calls[1..])
  }

  /** The operations of a run that reached one log, in order. */
  ghost function Addressed(cut: Cut, sys: System, calls: seq<Call>, id: LogId): seq<Op>
    decreases |calls|
  {
    if calls == [] || !sys.db.Valid() then [] else
      OpsOn(sys, calls[0], id) + Addressed(cut, Next(cut, sys, calls[0]), calls[1..], id)
  }

  lemma {:induction false} RunIsolates(cut: Cut, sys: System, calls: seq<Call>, id: LogId)
    requires Inv(sys)
    ensures Inv(SystemRun(cut, sys, calls))
    ensures id in SystemRun(cut, sys, calls).db.registry ==>
              SystemRun(cut, sys, calls).db.View(id)
              == Run(cut, if id in sys.db.registry then sys.db.View(id) else CREATED, Addressed(cut, sys, calls, id))
    decreases |calls|
  {
    if calls != [] {
      var next, rest := Next(cut, sys, calls[0]), calls[1..];
      CallsAreIsolated(cut, sys, calls[0], id);
      RunIsolates(cut, next, rest, id);
      var here := if id in sys.db.registry then sys.db.View(id) else CREATED;
      RunConcat(cut, here, OpsOn(sys, calls[0], id), Addressed(cut, next, rest, id));
    }
  }

  /**
   Isolation. In every reachable state of any number of Stores over one schema each
   cached statement names its own log's tables, and every log is exactly what the
   operations addressed to it, and no others, make of a freshly created one.
   */
  lemma {:induction false} LogsShareNothing(cut: Cut, calls: seq<Call>, id: LogId)
    ensures var end := SystemRun(cut, System(EMPTY, map[]), calls);
            && Inv(end)
            && (id in end.db.registry ==>
                  end.db.View(id) == Run(cut, CREATED, Addressed(cut, System(EMPTY, map[]), calls, id)))
  {
    RunIsolates(cut, System(EMPTY, map[]), calls, id);
  }
}
