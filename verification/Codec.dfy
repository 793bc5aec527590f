/**
 How a batch becomes entry rows and how a read puts the rows together again
 (store.go: chunkArrays, chunksOf and the loop of ReadFrom).

 The two directions never meet in the program: the rows go into unordered tables
 and come back in the order the query's ORDER BY (seqno, chunk) gives them, so
 the round trip is stated over every sequence that is sorted that way.
 */
module Codec {
  import opened Words

  newtype byte = x: int | 0 <= x < 0x100
  type Bytes = seq<byte>

  /** The payload one row carries. */
  const MAX_ENTRY_CHUNK: nat := 8000

  /** The longest payload whose chunk indexes all survive the int16 cast. */
  const MAX_PAYLOAD: nat := 0x8000 * MAX_ENTRY_CHUNK

  datatype Entry = Entry(seqno: nat, epoch: nat, payload: Bytes)
  datatype EntryRow = EntryRow(seqno: nat, chunk: int, epoch: nat, payload: Bytes)
  type Table = multiset<EntryRow>

  // ---------- splitting ----------

  function ChunksOf(payload: Bytes): (parts: seq<Bytes>)
    decreases |payload|
  {
    if |payload| <= MAX_ENTRY_CHUNK then [payload]
    else [payload[..MAX_ENTRY_CHUNK]] + ChunksOf(payload[MAX_ENTRY_CHUNK..])
  }

  function Joined(parts: seq<Bytes>): Bytes {
    if parts == [] then [] else parts[0] + Joined(parts[1..])
  }

  /** Rows an entry of `size` bytes takes: the count the program computes up front. */
  function ChunkCount(size: nat): nat {
    Max(1, (size + MAX_ENTRY_CHUNK - 1) / MAX_ENTRY_CHUNK)
  }

  /** Splitting loses nothing, fits every part into a row, and makes as many parts as were counted. */
  lemma {:induction false} ChunksOfSplits(payload: Bytes)
    ensures Joined(ChunksOf(payload)) == payload
    ensures |ChunksOf(payload)| == ChunkCount(|payload|)
    ensures forall k :: 0 <= k < |ChunksOf(payload)| ==> |ChunksOf(payload)[k]| <= MAX_ENTRY_CHUNK
    decreases |payload|
  {
    if |payload| <= MAX_ENTRY_CHUNK {
      assert Joined([payload]) == payload + Joined([]);
    } else {
      ChunksOfSplits(payload[MAX_ENTRY_CHUNK..]);
      assert ChunksOf(payload)[1..] == ChunksOf(payload[MAX_ENTRY_CHUNK..]);
    }
  }

  method SplitPayload(payload: Bytes) returns (parts: seq<Bytes>)
    ensures parts == ChunksOf(payload)
  {
    if |payload| <= MAX_ENTRY_CHUNK {
      return [payload];
    }
    parts := [];
    var off := 0;
    while off < |payload|
      invariant 0 <= off
      invariant off < |payload| ==> parts + ChunksOf(payload[off..]) == ChunksOf(payload)
      invariant off >= |payload| ==> parts == ChunksOf(payload)
    {
      var end := Min(off + MAX_ENTRY_CHUNK, |payload|);
      if off + MAX_ENTRY_CHUNK < |payload| {
        assert payload[off..][..MAX_ENTRY_CHUNK] == payload[off..end];
        assert payload[off..][MAX_ENTRY_CHUNK..] == payload[off + MAX_ENTRY_CHUNK..];
      } else {
        assert payload[off..end] == payload[off..];
      }
      parts := parts + [payload[off..end]];
      off := off + MAX_ENTRY_CHUNK;
    }
  }

  // ---------- rows ----------

  /** The rows of one entry's parts, the first of them numbered `k`. */
  function PartRows(seqno: nat, epoch: nat, parts: seq<Bytes>, k: nat): seq<EntryRow> {
    if parts == [] then []
    else [EntryRow(seqno, ToInt16(k), epoch, parts[0])] + PartRows(seqno, epoch, parts[1..], k + 1)
  }

  lemma {:induction false} PartRowsAt(seqno: nat, epoch: nat, parts: seq<Bytes>, k: nat)
    ensures |PartRows(seqno, epoch, parts, k)| == |parts|
    ensures forall i :: 0 <= i < |parts| ==>
              PartRows(seqno, epoch, parts, k)[i] == EntryRow(seqno, ToInt16(k + i), epoch, parts[i])
    decreases |parts|
  {
    if parts != [] {
      PartRowsAt(seqno, epoch, parts[1..], k + 1);
      forall i | 0 < i < |parts|
        ensures PartRows(seqno, epoch, parts, k)[i] == EntryRow(seqno, ToInt16(k + i), epoch, parts[i])
      {
        assert PartRows(seqno, epoch, parts, k)[i] == PartRows(seqno, epoch, parts[1..], k + 1)[i - 1];
        assert parts[1..][i - 1] == parts[i];
      }
    }
  }

  function RowsOfEntry(e: Entry): seq<EntryRow> {
    PartRows(e.seqno, e.epoch, ChunksOf(e.payload), 0)
  }

  function RowsOf(entries: seq<Entry>): seq<EntryRow> {
    if entries == [] then [] else RowsOfEntry(entries[0]) + RowsOf(entries[1..])
  }

  /** The program's layout of an entry in a table. */
  function Laid(e: Entry): Table {
    multiset(RowsOfEntry(e))
  }

  /** The entries a batch makes: consecutive seqnos from `first`, one epoch. */
  function BatchEntries(epoch: nat, first: nat, payloads: seq<Bytes>): (entries: seq<Entry>)
    ensures |entries| == |payloads|
    ensures forall i :: 0 <= i < |entries| ==> entries[i] == Entry(first + i, epoch, payloads[i])
  {
    seq(|payloads|, i requires 0 <= i < |payloads| => Entry(first + i, epoch, payloads[i]))
  }

  lemma {:induction false} RowsOfConcat(a: seq<Entry>, b: seq<Entry>)
    ensures RowsOf(a + b) == RowsOf(a) + RowsOf(b)
  {
    if a == [] {
      assert a + b == b;
    } else {
      var ab := a + b;
      assert ab[1..] == a[1..] + b && ab[0] == a[0];
      RowsOfConcat(a[1..], b);
      assert RowsOf(ab) == RowsOfEntry(a[0]) + RowsOf(ab[1..]);
    }
  }

  lemma {:induction false} RowsOfSnoc(entries: seq<Entry>, i: nat)
    requires i < |entries|
    ensures RowsOf(entries[..i + 1]) == RowsOf(entries[..i]) + RowsOfEntry(entries[i])
  {
    RowsOfConcat(entries[..i], [entries[i]]);
    assert entries[..i + 1] == entries[..i] + [entries[i]];
    assert RowsOf([entries[i]]) == RowsOfEntry(entries[i]) + RowsOf([]);
  }

  /** An entry takes a row for every 8000 bytes it has or begins, and one if it has none. */
  lemma {:induction false} RowsTaken(e: Entry, n: nat)
    requires n > 0
    ensures |RowsOfEntry(e)| == n <==> (n - 1) * 8000 < |e.payload| <= n * 8000 || (n == 1 && e.payload == [])
  {
    ChunksOfSplits(e.payload);
    PartRowsAt(e.seqno, e.epoch, ChunksOf(e.payload), 0);
  }

  /** Every row of an entry sequence is a row of one of its entries. */
  lemma {:induction false} RowsOfMembers(entries: seq<Entry>, row: EntryRow)
    requires row in RowsOf(entries)
    ensures exists i :: 0 <= i < |entries| && row in RowsOfEntry(entries[i])
  {
    if row in RowsOfEntry(entries[0]) {
    } else {
      RowsOfMembers(entries[1..], row);
      var i :| 0 <= i < |entries[1..]| && row in RowsOfEntry(entries[1..][i]);
      assert entries[i + 1] == entries[1..][i];
    }
  }

  /** What unnest() makes of the three parallel arrays of an append statement, under its epoch. */
  function Unnest(seqnos: seq<nat>, chunks: seq<int>, parts: seq<Bytes>, epoch: nat): seq<EntryRow>
    requires |seqnos| == |chunks| == |parts|
  {
    seq(|parts|, i requires 0 <= i < |parts| => EntryRow(seqnos[i], chunks[i], epoch, parts[i]))
  }

  lemma {:induction false} UnnestSnoc(seqnos: seq<nat>, chunks: seq<int>, parts: seq<Bytes>, epoch: nat,
                                      seqno: nat, chunk: int, part: Bytes)
    requires |seqnos| == |chunks| == |parts|
    ensures Unnest(seqnos + [seqno], chunks + [chunk], parts + [part], epoch)
         == Unnest(seqnos, chunks, parts, epoch) + [EntryRow(seqno, chunk, epoch, part)]
  {
  }

  /** One array of the statement's parameters per column. */
  method ChunkArrays(first: nat, payloads: seq<Bytes>, ghost epoch: nat)
    returns (seqnos: seq<nat>, chunks: seq<int>, parts: seq<Bytes>)
    ensures |seqnos| == |chunks| == |parts|
    ensures Unnest(seqnos, chunks, parts, epoch) == RowsOf(BatchEntries(epoch, first, payloads))
  {
    seqnos, chunks, parts := [], [], [];
    ghost var entries := BatchEntries(epoch, first, payloads);
    for i := 0 to |payloads|
      invariant |seqnos| == |chunks| == |parts|
      invariant Unnest(seqnos, chunks, parts, epoch) == RowsOf(entries[..i])
    {
      var split := SplitPayload(payloads[i]);
      ghost var rows := RowsOf(entries[..i]);
      for chunk := 0 to |split|
        invariant |seqnos| == |chunks| == |parts|
        invariant Unnest(seqnos, chunks, parts, epoch) == rows + PartRows(first + i, epoch, split[..chunk], 0)
      {
        UnnestSnoc(seqnos, chunks, parts, epoch, first + i, ToInt16(chunk), split[chunk]);
        PartRowsSnoc(rows, first + i, epoch, split, chunk);
        seqnos := seqnos + [first + i];
        chunks := chunks + [ToInt16(chunk)];
        parts := parts + [split[chunk]];
      }
      assert split[..|split|] == split;
      RowsOfSnoc(entries, i);
    }
    assert entries[..|payloads|] == entries;
  }

  lemma {:induction false} PartRowsSnoc(rows: seq<EntryRow>, seqno: nat, epoch: nat, parts: seq<Bytes>, k: nat)
    requires k < |parts|
    ensures rows + PartRows(seqno, epoch, parts[..k], 0) + [EntryRow(seqno, ToInt16(k), epoch, parts[k])]
         == rows + PartRows(seqno, epoch, parts[..k + 1], 0)
  {
    PartRowsAt(seqno, epoch, parts[..k], 0);
    PartRowsAt(seqno, epoch, parts[..k + 1], 0);
    assert PartRows(seqno, epoch, parts[..k + 1], 0)
        == PartRows(seqno, epoch, parts[..k], 0) + [EntryRow(seqno, ToInt16(k), epoch, parts[k])];
  }

  // ---------- reassembly ----------

  datatype Reading = Entries(entries: seq<Entry>) | LostChunk(seqno: nat, chunk: int)

  /** The read loop from a point where `got` has been assembled already. */
  function Assemble(rows: seq<EntryRow>, got: seq<Entry>): Reading
    decreases |rows|
  {
    if rows == [] then Entries(got)
    else
      var row := rows[0];
      if row.chunk == 0 then
        Assemble(rows[1..], got + [Entry(row.seqno, row.epoch, row.payload)])
      else if got == [] || got[|got| - 1].seqno != row.seqno then
        LostChunk(row.seqno, row.chunk)
      else
        var tail := got[|got| - 1];
        Assemble(rows[1..], got[|got| - 1 := tail.(payload := tail.payload + row.payload)])
  }

  method ReadRows(rows: seq<EntryRow>) returns (reading: Reading)
    ensures reading == Assemble(rows, [])
  {
    var entries: seq<Entry> := [];
    var i := 0;
    while i < |rows|
      invariant 0 <= i <= |rows|
      invariant Assemble(rows[i..], entries) == Assemble(rows, [])
    {
      var row := rows[i];
      assert rows[i..][1..] == rows[i + 1..];
      if row.chunk == 0 {
        entries := entries + [Entry(row.seqno, row.epoch, row.payload)];
      } else {
        if entries == [] || entries[|entries| - 1].seqno != row.seqno {
          return LostChunk(row.seqno, row.chunk);
        }
        var tail := entries[|entries| - 1];
        entries := entries[|entries| - 1 := tail.(payload := tail.payload + row.payload)];
      }
      i := i + 1;
    }
    return Entries(entries);
  }

  // ---------- the order of the query ----------

  predicate KeyLess(a: EntryRow, b: EntryRow) {
    a.seqno < b.seqno || (a.seqno == b.seqno && a.chunk < b.chunk)
  }

  /** ORDER BY seqno, chunk: rows with equal keys may come in either order. */
  ghost predicate Ordered(rows: seq<EntryRow>) {
    forall i, j :: 0 <= i < j < |rows| ==> !KeyLess(rows[j], rows[i])
  }

  ghost predicate StrictlyOrdered(rows: seq<EntryRow>) {
    forall i, j :: 0 <= i < j < |rows| ==> KeyLess(rows[i], rows[j])
  }

  ghost predicate Increasing(entries: seq<Entry>) {
    forall i, j :: 0 <= i < j < |entries| ==> entries[i].seqno < entries[j].seqno
  }

  predicate Fits(e: Entry) {
    |e.payload| <= MAX_PAYLOAD
  }

  ghost predicate Below(block: seq<EntryRow>, rest: multiset<EntryRow>) {
    forall a, b :: a in block && b in rest ==> KeyLess(a, b)
  }

  lemma {:induction false} HeadSortsFirst(block: seq<EntryRow>, rest: multiset<EntryRow>, sorted: seq<EntryRow>)
    requires block != [] && StrictlyOrdered(block) && Below(block, rest)
    requires Ordered(sorted) && multiset(sorted) == multiset(block) + rest
    ensures sorted != [] && sorted[0] == block[0]
  {
    var head := block[0];
    assert head in multiset(block);
    assert head in multiset(sorted);
    var i :| 0 <= i < |sorted| && sorted[i] == head;
    var least := sorted[0];
    assert !KeyLess(head, least);
    assert least in multiset(sorted);
    assert least !in rest;
    assert least in multiset(block);
    var k :| 0 <= k < |block| && block[k] == least;
  }

  predicate AllFit(entries: seq<Entry>) {
    forall i :: 0 <= i < |entries| ==> Fits(entries[i])
  }

  /**
   A strictly ordered block, every key of which is below every key of the rest,
   comes first, in its own order, out of any sorting of block and rest together.
   */
  lemma {:induction false} SortPeelsBlock(block: seq<EntryRow>, rest: multiset<EntryRow>, sorted: seq<EntryRow>)
    returns (tail: seq<EntryRow>)
    requires StrictlyOrdered(block) && Below(block, rest)
    requires Ordered(sorted) && multiset(sorted) == multiset(block) + rest
    ensures sorted == block + tail && multiset(tail) == rest && Ordered(tail)
    decreases |block|
  {
    if block == [] {
      tail := sorted;
    } else {
      HeadSortsFirst(block, rest, sorted);
      DropSameHead(block, rest, sorted);
      TailKeepsOrder(block, rest, sorted);
      tail := SortPeelsBlock(block[1..], rest, sorted[1..]);
      assert block == [block[0]] + block[1..];
      assert sorted == [sorted[0]] + sorted[1..];
    }
  }

  lemma {:induction false} DropSameHead(block: seq<EntryRow>, rest: multiset<EntryRow>, sorted: seq<EntryRow>)
    requires block != [] && sorted != [] && sorted[0] == block[0]
    requires multiset(sorted) == multiset(block) + rest
    ensures multiset(sorted[1..]) == multiset(block[1..]) + rest
  {
    var head := multiset{block[0]};
    assert block == [block[0]] + block[1..];
    assert sorted == [sorted[0]] + sorted[1..];
    var a, b := multiset(sorted[1..]), multiset(block[1..]);
    assert head + a == multiset(sorted);
    assert head + b == multiset(block);
    assert head + a == head + (b + rest);
    assert (head + a) - head == a;
  }

  lemma {:induction false} TailKeepsOrder(block: seq<EntryRow>, rest: multiset<EntryRow>, sorted: seq<EntryRow>)
    requires block != [] && StrictlyOrdered(block) && Below(block, rest)
    requires sorted != [] && Ordered(sorted)
    ensures StrictlyOrdered(block[1..]) && Below(block[1..], rest) && Ordered(sorted[1..])
  {
  }

  lemma {:induction false} RowsOfEntrySeqno(e: Entry, row: EntryRow)
    requires row in RowsOfEntry(e)
    ensures row.seqno == e.seqno && row.epoch == e.epoch
  {
    PartRowsAt(e.seqno, e.epoch, ChunksOf(e.payload), 0);
    var i :| 0 <= i < |RowsOfEntry(e)| && row == RowsOfEntry(e)[i];
  }

  /** The rows of an entry that fits are in strict order. */
  lemma {:induction false} FittingRowsOrdered(e: Entry)
    requires Fits(e)
    ensures StrictlyOrdered(RowsOfEntry(e))
  {
    ChunksOfSplits(e.payload);
    CountFits(|e.payload|);
    PartRowsAt(e.seqno, e.epoch, ChunksOf(e.payload), 0);
    var rows := RowsOfEntry(e);
    forall i, j | 0 <= i < j < |rows|
      ensures KeyLess(rows[i], rows[j])
    {
      IndexSurvives(i);
      IndexSurvives(j);
    }
  }

  lemma {:induction false} CountFits(size: nat)
    requires size <= MAX_PAYLOAD
    ensures ChunkCount(size) <= 0x8000
  {
  }

  lemma {:induction false} IndexSurvives(k: nat)
    requires k < 0x8000
    ensures ToInt16(0 + k) == k
  {
  }

  /** An entry that does not fit has a row whose index has wrapped. */
  lemma {:induction false} OversizeWraps(e: Entry) returns (row: EntryRow)
    requires !Fits(e)
    ensures row in RowsOfEntry(e) && row.seqno == e.seqno && row.chunk == -0x8000
  {
    ChunksOfSplits(e.payload);
    PartRowsAt(e.seqno, e.epoch, ChunksOf(e.payload), 0);
    row := RowsOfEntry(e)[0x8000];
  }

  /** Later parts of an entry are appended to it, whatever follows. */
  lemma {:induction false} AssembleParts(seqno: nat, epoch: nat, parts: seq<Bytes>, k: nat,
                                         rest: seq<EntryRow>, got: seq<Entry>, sofar: Bytes)
    requires 1 <= k && k + |parts| <= 0x8000
    ensures Assemble(PartRows(seqno, epoch, parts, k) + rest, got + [Entry(seqno, epoch, sofar)])
         == Assemble(rest, got + [Entry(seqno, epoch, sofar + Joined(parts))])
    decreases |parts|
  {
    var rows := PartRows(seqno, epoch, parts, k);
    if parts == [] {
      assert rows + rest == rest;
      assert sofar + Joined(parts) == sofar;
    } else {
      var acc := got + [Entry(seqno, epoch, sofar)];
      var next := Entry(seqno, epoch, sofar + parts[0]);
      assert (rows + rest)[1..] == PartRows(seqno, epoch, parts[1..], k + 1) + rest;
      assert (rows + rest)[0].chunk == k;
      assert acc[|acc| - 1 := next] == got + [next];
      AssembleParts(seqno, epoch, parts[1..], k + 1, rest, got, sofar + parts[0]);
      assert sofar + Joined(parts) == sofar + parts[0] + Joined(parts[1..]);
    }
  }

  lemma {:induction false} AssembleEntry(e: Entry, rest: seq<EntryRow>, got: seq<Entry>)
    requires Fits(e)
    ensures Assemble(RowsOfEntry(e) + rest, got) == Assemble(rest, got + [e])
  {
    ChunksOfSplits(e.payload);
    var parts := ChunksOf(e.payload);
    var rows := RowsOfEntry(e);
    assert (rows + rest)[1..] == PartRows(e.seqno, e.epoch, parts[1..], 1) + rest;
    assert (rows + rest)[0] == EntryRow(e.seqno, 0, e.epoch, parts[0]);
    AssembleParts(e.seqno, e.epoch, parts[1..], 1, rest, got, parts[0]);
    assert parts[0] + Joined(parts[1..]) == e.payload;
  }

  lemma {:induction false} BlockBelowRest(e: Entry, rest: seq<Entry>)
    requires forall i :: 0 <= i < |rest| ==> e.seqno < rest[i].seqno
    ensures Below(RowsOfEntry(e), multiset(RowsOf(rest)))
  {
    forall a, b | a in RowsOfEntry(e) && b in multiset(RowsOf(rest))
      ensures KeyLess(a, b)
    {
      RowsOfEntrySeqno(e, a);
      RowsOfMembers(rest, b);
      var i :| 0 <= i < |rest| && b in RowsOfEntry(rest[i]);
      RowsOfEntrySeqno(rest[i], b);
    }
  }

  /** An entry with more than 32768 rows sorts its wrapped chunk before chunk 0, so its first row is an orphan. */
  lemma {:induction false} OversizeLost(e: Entry, rest: multiset<EntryRow>, sorted: seq<EntryRow>, got: seq<Entry>)
    requires !Fits(e) && Below(RowsOfEntry(e), rest)
    requires got != [] ==> got[|got| - 1].seqno < e.seqno
    requires Ordered(sorted) && multiset(sorted) == multiset(RowsOfEntry(e)) + rest
    ensures Assemble(sorted, got).LostChunk?
  {
    var wrapped := OversizeWraps(e);
    assert wrapped in multiset(RowsOfEntry(e));
    assert wrapped in multiset(sorted);
    var i :| 0 <= i < |sorted| && sorted[i] == wrapped;
    var least := sorted[0];
    assert !KeyLess(wrapped, least);
    assert least in multiset(sorted);
    assert least !in rest;
    assert least in multiset(RowsOfEntry(e));
    RowsOfEntrySeqno(e, least);
    assert least.chunk < 0;
  }

  lemma {:induction false} ReadOneEntry(e: Entry, others: multiset<EntryRow>, sorted: seq<EntryRow>, got: seq<Entry>)
    returns (tail: seq<EntryRow>)
    requires Fits(e) && Below(RowsOfEntry(e), others)
    requires Ordered(sorted) && multiset(sorted) == multiset(RowsOfEntry(e)) + others
    ensures Ordered(tail) && multiset(tail) == others
    ensures Assemble(sorted, got) == Assemble(tail, got + [e])
  {
    FittingRowsOrdered(e);
    tail := SortPeelsBlock(RowsOfEntry(e), others, sorted);
    AssembleEntry(e, tail, got);
  }

  lemma {:induction false} RowsOfSplit(entries: seq<Entry>)
    requires entries != [] && Increasing(entries)
    ensures multiset(RowsOf(entries)) == multiset(RowsOfEntry(entries[0])) + multiset(RowsOf(entries[1..]))
    ensures Below(RowsOfEntry(entries[0]), multiset(RowsOf(entries[1..])))
    ensures Increasing(entries[1..])
    ensures entries[1..] != [] ==> entries[0].seqno < entries[1..][0].seqno
  {
    BlockBelowRest(entries[0], entries[1..]);
  }

  lemma {:induction false} MoveHead(got: seq<Entry>, entries: seq<Entry>)
    requires entries != []
    ensures got + [entries[0]] + entries[1..] == got + entries
  {
    assert entries == [entries[0]] + entries[1..];
  }

  lemma {:induction false} AllFitSplit(entries: seq<Entry>)
    requires entries != []
    ensures AllFit(entries) <==> Fits(entries[0]) && AllFit(entries[1..])
  {
    if Fits(entries[0]) && AllFit(entries[1..]) {
      assert forall i :: 0 < i < |entries| ==> entries[i] == entries[1..][i - 1];
    }
  }

  lemma {:induction false} ReadbackFrom(entries: seq<Entry>, sorted: seq<EntryRow>, got: seq<Entry>)
    requires Increasing(entries)
    requires got != [] && entries != [] ==> got[|got| - 1].seqno < entries[0].seqno
    requires Ordered(sorted) && multiset(sorted) == multiset(RowsOf(entries))
    ensures AllFit(entries) ==> Assemble(sorted, got) == Entries(got + entries)
    ensures !AllFit(entries) ==> Assemble(sorted, got).LostChunk?
    decreases |entries|
  {
    if entries == [] {
      assert |sorted| == |multiset(sorted)| == 0;
      assert got + entries == got;
    } else {
      var e, rest := entries[0], entries[1..];
      var others := multiset(RowsOf(rest));
      RowsOfSplit(entries);
      AllFitSplit(entries);
      if Fits(e) {
        var tail := ReadOneEntry(e, others, sorted, got);
        var more := got + [e];
        MoveHead(got, entries);
        ReadbackFrom(rest, tail, more);
      } else {
        OversizeLost(e, others, sorted, got);
      }
    }
  }

  /**
   Readback, in both directions. However the tables return the rows of some
   entries, reading them in the order of the query gives those entries back when
   no payload is longer than MAX_PAYLOAD, and an error when one is.
   */
  lemma {:induction false} Readback(entries: seq<Entry>, sorted: seq<EntryRow>)
    requires Increasing(entries)
    requires Ordered(sorted) && multiset(sorted) == multiset(RowsOf(entries))
    ensures Assemble(sorted, []) == Entries(entries) <==> AllFit(entries)
    ensures Assemble(sorted, []).LostChunk? <==> !AllFit(entries)
  {
    ReadbackFrom(entries, sorted, []);
    assert [] + entries == entries;
  }
}
