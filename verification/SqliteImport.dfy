/** The checkpointed import of mixapi/migration/sqlite_import.py.  An importer may stop
    at any point and be started again with another batch size. */
module SqliteImport {
  import opened Prelude

  /** A converted source row.  `identity` holds its identity columns, `alternates` the
      other unique columns of the table. */
  datatype Row = Row(identity: seq<string>, alternates: seq<string>, data: string)

  /** Whether the identity columns form one composite key, as in route_decisions, or
      each is unique by itself, as in every other table. */
  datatype Table = Table(composite: bool)

  predicate SharesColumn(a: seq<string>, b: seq<string>) {
    exists i | 0 <= i < |a| && i < |b| :: a[i] == b[i]
  }

  /** The rows cannot both be stored. */
  predicate Clash(t: Table, a: Row, b: Row) {
    || (if t.composite then a.identity == b.identity else SharesColumn(a.identity, b.identity))
    || SharesColumn(a.alternates, b.alternates)
  }

  predicate Stored(t: Table, rows: seq<Row>, row: Row) {
    exists i | 0 <= i < |rows| :: Clash(t, rows[i], row)
  }

  /** `SELECT ... WHERE key = ... OR key = ... LIMIT 1`: the earliest stored row with
      any identity column in common. */
  function Lookup(rows: seq<Row>, row: Row): Option<Row>
    decreases |rows|
  {
    if rows == [] then None
    else if SharesColumn(rows[0].identity, row.identity) then Some(rows[0])
    else Lookup(rows[1..], row)
  }

  /** `_insert_mapping`; None is a MigrationConflict, which rolls the batch back. */
  function Insert(t: Table, rows: seq<Row>, row: Row): Option<seq<Row>> {
    if !Stored(t, rows, row) then Some(rows + [row])
    else if Lookup(rows, row) == Some(row) then Some(rows)
    else None
  }

  function InsertAll(t: Table, rows: seq<Row>, batch: seq<Row>): Option<seq<Row>>
    decreases |batch|
  {
    if batch == [] then Some(rows) else
      match InsertAll(t, rows, batch[..|batch| - 1])
      case None => None
      case Some(stored) => Insert(t, stored, batch[|batch| - 1])
  }

  // ----------------------------------------------------------------- checkpoints

  /** A recorded batch: its cursor, a row count and the digest of the last identity. */
  datatype Batch = Batch(count: nat, digest: string, rows: nat)

  datatype State = State(rows: seq<Row>, batches: seq<Batch>)

  function Completed(batches: seq<Batch>): nat
    decreases |batches|
  {
    if batches == [] then 0 else Completed(batches[..|batches| - 1]) + batches[|batches| - 1].rows
  }

  /** `_record_batch`: a cursor already recorded is not recorded again. */
  function Record(batches: seq<Batch>, b: Batch): seq<Batch> {
    if exists i | 0 <= i < |batches| :: batches[i].count == b.count && batches[i].digest == b.digest
    then batches else batches + [b]
  }

  function Digest(row: Row, hash: seq<string> -> string): string { hash(row.identity) }

  /** One batch of `_migrate_sql_entity`, rows and checkpoint in one transaction. */
  function ImportBatch(
      t: Table, source: seq<Row>, s: State, from: nat, size: nat, hash: seq<string> -> string): Option<State>
    requires from < |source| && size > 0
  {
    var batch := source[from..Min(from + size, |source|)];
    match InsertAll(t, s.rows, batch)
    case None => None
    case Some(rows) =>
      Some(State(rows, Record(s.batches, Batch(from + |batch|, Digest(batch[|batch| - 1], hash), |batch|))))
  }

  /** A call that commits at most `limit` batches before it stops or meets a conflict. */
  function Attempt(
      t: Table, source: seq<Row>, s: State, from: nat, size: nat, limit: nat, hash: seq<string> -> string): State
    requires size > 0
    decreases limit
  {
    if limit == 0 || from >= |source| then s else
      match ImportBatch(t, source, s, from, size, hash)
      case None => s
      case Some(next) => Attempt(t, source, next, Min(from + size, |source|), size, limit - 1, hash)
  }

  /** Each call starts from the rows its checkpoints count. */
  function Resume(t: Table, source: seq<Row>, s: State, size: nat, limit: nat, hash: seq<string> -> string): State
    requires size > 0
  {
    Attempt(t, source, s, Completed(s.batches), size, limit, hash)
  }

  datatype Call = Call(size: nat, limit: nat)

  function Resumed(t: Table, source: seq<Row>, s: State, calls: seq<Call>, hash: seq<string> -> string): State
    requires forall i :: 0 <= i < |calls| ==> calls[i].size > 0
    decreases |calls|
  {
    if calls == [] then s else
      Resumed(t, source, Resume(t, source, s, calls[0].size, calls[0].limit, hash), calls[1..], hash)
  }

  // ------------------------------------------------------ what the table contains

  /** The rows of a source prefix that the destination did not already hold. */
  function Fresh(t: Table, initial: seq<Row>, source: seq<Row>): seq<Row>
    decreases |source|
  {
    if source == [] then [] else
      var last := source[|source| - 1];
      Fresh(t, initial, source[..|source| - 1]) + if Stored(t, initial, last) then [] else [last]
  }

  /** The destination's own rows agree with a source row. */
  predicate Accepts(t: Table, initial: seq<Row>, row: Row) {
    Stored(t, initial, row) ==> Lookup(initial, row) == Some(row)
  }

  /** The source table's own constraints. */
  ghost predicate Distinct(t: Table, source: seq<Row>) {
    forall i, j :: 0 <= i < j < |source| ==> !Clash(t, source[i], source[j])
  }

  ghost predicate Inv(t: Table, source: seq<Row>, initial: seq<Row>, s: State) {
    && Completed(s.batches) <= |source|
    && s.rows == initial + Fresh(t, initial, source[..Completed(s.batches)])
    && (forall i :: 0 <= i < |s.batches| ==> s.batches[i].count <= Completed(s.batches))
    && (forall i :: 0 <= i < Completed(s.batches) ==> Accepts(t, initial, source[i]))
  }

  /** Every fresh row is one of the source rows it came from. */
  lemma {:induction false} FreshFromSource(t: Table, initial: seq<Row>, source: seq<Row>, i: nat)
    requires i < |Fresh(t, initial, source)|
    ensures exists k :: 0 <= k < |source| && source[k] == Fresh(t, initial, source)[i] && !Stored(t, initial, source[k])
    decreases |source|
  {
    var init := source[..|source| - 1];
    if i < |Fresh(t, initial, init)| {
      FreshFromSource(t, initial, init, i);
      var k :| 0 <= k < |init| && init[k] == Fresh(t, initial, init)[i] && !Stored(t, initial, init[k]);
      assert source[k] == init[k];
    } else {
      assert source[|source| - 1] == Fresh(t, initial, source)[i];
    }
  }

  lemma {:induction false} LookupPrefix(a: seq<Row>, b: seq<Row>, row: Row)
    ensures Lookup(a, row).Some? ==> Lookup(a + b, row) == Lookup(a, row)
    ensures Lookup(a, row).None? ==> Lookup(a + b, row) == Lookup(b, row)
    decreases |a|
  {
    if a == [] {
      assert a + b == b;
    } else {
      assert (a + b)[1..] == a[1..] + b;
      LookupPrefix(a[1..], b, row);
    }
  }

  lemma {:induction false} LookupFound(rows: seq<Row>, row: Row)
    ensures Lookup(rows, row).Some? ==>
      Lookup(rows, row).value in rows && SharesColumn(Lookup(rows, row).value.identity, row.identity)
    decreases |rows|
  {
    if rows != [] { LookupFound(rows[1..], row); }
  }

  /** The next source row is refused exactly when the destination's own rows disagree
      with it; otherwise it is fresh if it was not there. */
  lemma {:induction false} InsertNext(t: Table, source: seq<Row>, initial: seq<Row>, n: nat)
    requires n < |source| && Distinct(t, source)
    requires source[n].identity != []
    ensures var rows := initial + Fresh(t, initial, source[..n]);
            Insert(t, rows, source[n]) ==
              if Accepts(t, initial, source[n]) then Some(initial + Fresh(t, initial, source[..n + 1])) else None
  {
    var added, row := Fresh(t, initial, source[..n]), source[n];
    var rows := initial + added;
    assert source[..n + 1][..n] == source[..n];
    forall i | 0 <= i < |added| ensures !Clash(t, added[i], row) && added[i] != row {
      FreshFromSource(t, initial, source[..n], i);
      assert SharesColumn(row.identity, row.identity) by { assert row.identity[0] == row.identity[0]; }
    }
    assert Stored(t, rows, row) <==> Stored(t, initial, row) by {
      if Stored(t, initial, row) {
        var i :| 0 <= i < |initial| && Clash(t, initial[i], row);
        assert rows[i] == initial[i];
      }
    }
    LookupPrefix(initial, added, row);
    LookupFound(added, row);
    assert rows + [row] == initial + (added + [row]) && added + [] == added;
  }

  ghost predicate AllAccepted(t: Table, source: seq<Row>, initial: seq<Row>, from: nat, end: nat)
    requires from <= end <= |source|
  {
    forall i :: from <= i < end ==> Accepts(t, initial, source[i])
  }

  function InsertThen(t: Table, stored: Option<seq<Row>>, row: Row): Option<seq<Row>> {
    match stored
    case None => None
    case Some(rows) => Insert(t, rows, row)
  }

  lemma {:induction false} InsertAllSnoc(t: Table, rows: seq<Row>, batch: seq<Row>, last: Row)
    ensures InsertAll(t, rows, batch + [last]) == InsertThen(t, InsertAll(t, rows, batch), last)
  {
    assert (batch + [last])[..|batch|] == batch;
  }

  lemma {:induction false} AcceptedSnoc(t: Table, source: seq<Row>, initial: seq<Row>, from: nat, end: nat)
    requires from < end <= |source|
    ensures AllAccepted(t, source, initial, from, end)
       <==> AllAccepted(t, source, initial, from, end - 1) && Accepts(t, initial, source[end - 1])
  {
  }

  /** What importing the source rows `from` to `end` leaves, or `None` if it is refused. */
  ghost function Imported(t: Table, source: seq<Row>, initial: seq<Row>, from: nat, end: nat): Option<seq<Row>>
    requires from <= end <= |source|
  {
    if AllAccepted(t, source, initial, from, end) then Some(initial + Fresh(t, initial, source[..end])) else None
  }

  lemma {:induction false} ImportedNext(t: Table, source: seq<Row>, initial: seq<Row>, from: nat, end: nat)
    requires from < end <= |source| && Distinct(t, source) && source[end - 1].identity != []
    ensures Imported(t, source, initial, from, end)
         == InsertThen(t, Imported(t, source, initial, from, end - 1), source[end - 1])
  {
    AcceptedSnoc(t, source, initial, from, end);
    InsertNext(t, source, initial, end - 1);
  }

  lemma {:induction false} InsertBatch(t: Table, source: seq<Row>, initial: seq<Row>, from: nat, end: nat)
    requires from <= end <= |source| && Distinct(t, source)
    requires forall i :: 0 <= i < |source| ==> source[i].identity != []
    ensures InsertAll(t, initial + Fresh(t, initial, source[..from]), source[from..end])
         == Imported(t, source, initial, from, end)
    decreases end
  {
    if from < end {
      InsertBatch(t, source, initial, from, end - 1);
      InsertBatchNext(t, source, initial, initial + Fresh(t, initial, source[..from]), from, end);
    } else {
      assert source[from..end] == [];
    }
  }

  lemma {:induction false} InsertBatchNext(
      t: Table, source: seq<Row>, initial: seq<Row>, rows: seq<Row>, from: nat, end: nat)
    requires from < end <= |source| && Distinct(t, source) && source[end - 1].identity != []
    requires InsertAll(t, rows, source[from..end - 1]) == Imported(t, source, initial, from, end - 1)
    ensures InsertAll(t, rows, source[from..end]) == Imported(t, source, initial, from, end)
  {
    ImportedNext(t, source, initial, from, end);
    var batch := source[from..end - 1];
    assert source[from..end] == batch + [source[end - 1]];
    InsertAllSnoc(t, rows, batch, source[end - 1]);
  }

  lemma {:induction false} BatchKeepsInv(t: Table, source: seq<Row>, initial: seq<Row>, s: State, b: Batch)
    requires Inv(t, source, initial, s) && Completed(s.batches) < b.count <= |source|
    requires b.rows == b.count - Completed(s.batches) && AllAccepted(t, source, initial, Completed(s.batches), b.count)
    ensures var next := State(initial + Fresh(t, initial, source[..b.count]), Record(s.batches, b));
      Inv(t, source, initial, next) && Completed(next.batches) == b.count
  {
    RecordNew(s.batches, b);
  }

  lemma {:induction false} ImportBatchIs(
      t: Table, source: seq<Row>, initial: seq<Row>, s: State, size: nat, hash: seq<string> -> string)
    returns (b: Batch)
    requires Distinct(t, source) && forall i :: 0 <= i < |source| ==> source[i].identity != []
    requires Completed(s.batches) < |source| && size > 0
    requires s.rows == initial + Fresh(t, initial, source[..Completed(s.batches)])
    ensures var from := Completed(s.batches);
      && b.count == Min(from + size, |source|) && b.rows == b.count - from
      && ImportBatch(t, source, s, from, size, hash) == Recorded(s, Imported(t, source, initial, from, b.count), b)
  {
    var from := Completed(s.batches);
    var end := Min(from + size, |source|);
    InsertBatch(t, source, initial, from, end);
    b := Batch(end, Digest(source[from..end][end - from - 1], hash), end - from);
    ImportBatchRecords(t, source, s, from, size, hash, b);
  }

  /** The rows after a batch and its checkpoint, or nothing. */
  function Recorded(s: State, rows: Option<seq<Row>>, b: Batch): Option<State> {
    match rows
    case None => None
    case Some(rows) => Some(State(rows, Record(s.batches, b)))
  }

  lemma {:induction false} ImportBatchRecords(
      t: Table, source: seq<Row>, s: State, from: nat, size: nat, hash: seq<string> -> string, b: Batch)
    requires from < |source| && size > 0 && b.count == Min(from + size, |source|)
    requires b == Batch(b.count, Digest(source[from..b.count][b.count - from - 1], hash), b.count - from)
    ensures ImportBatch(t, source, s, from, size, hash)
         == Recorded(s, InsertAll(t, s.rows, source[from..b.count]), b)
  {
  }

  /** A committed batch takes the table to the next checkpointed prefix, and its cursor
      is always new. */
  lemma {:induction false} BatchStep(
      t: Table, source: seq<Row>, initial: seq<Row>, s: State, size: nat, hash: seq<string> -> string)
    requires Distinct(t, source) && forall i :: 0 <= i < |source| ==> source[i].identity != []
    requires Inv(t, source, initial, s) && Completed(s.batches) < |source| && size > 0
    ensures var from := Completed(s.batches);
            var end := Min(from + size, |source|);
            match ImportBatch(t, source, s, from, size, hash)
            case None => !AllAccepted(t, source, initial, from, end)
            case Some(next) => Inv(t, source, initial, next) && Completed(next.batches) == end
  {
    var b := ImportBatchIs(t, source, initial, s, size, hash);
    if AllAccepted(t, source, initial, Completed(s.batches), b.count) {
      BatchKeepsInv(t, source, initial, s, b);
    }
  }

  lemma {:induction false} RecordNew(batches: seq<Batch>, b: Batch)
    requires forall i :: 0 <= i < |batches| ==> batches[i].count < b.count
    ensures Record(batches, b) == batches + [b]
    ensures Completed(batches + [b]) == Completed(batches) + b.rows
  {
    assert (batches + [b])[..|batches|] == batches;
  }

  /** From `s`, a call of at most `limit` batches ended in `r`. */
  ghost predicate Advances(t: Table, source: seq<Row>, initial: seq<Row>, s: State, r: State, limit: nat) {
    && Inv(t, source, initial, r) && Completed(s.batches) <= Completed(r.batches)
    && (limit + Completed(s.batches) >= |source| && AllAccepted(t, source, initial, 0, |source|) ==>
          Completed(r.batches) == |source|)
  }

  lemma {:induction false} AdvancesRefused(
      t: Table, source: seq<Row>, initial: seq<Row>, s: State, limit: nat, end: nat)
    requires Inv(t, source, initial, s) && Completed(s.batches) <= end <= |source|
    requires !AllAccepted(t, source, initial, Completed(s.batches), end)
    ensures Advances(t, source, initial, s, s, limit)
  {
  }

  lemma {:induction false} AdvancesThen(
      t: Table, source: seq<Row>, initial: seq<Row>, s: State, next: State, r: State, limit: nat)
    requires limit > 0 && Completed(s.batches) < Completed(next.batches)
    requires Advances(t, source, initial, next, r, limit - 1)
    ensures Advances(t, source, initial, s, r, limit)
  {
  }

  lemma {:induction false} AttemptKeeps(
      t: Table, source: seq<Row>, initial: seq<Row>, s: State, size: nat, limit: nat, hash: seq<string> -> string)
    requires Distinct(t, source) && forall i :: 0 <= i < |source| ==> source[i].identity != []
    requires Inv(t, source, initial, s) && size > 0
    ensures Advances(t, source, initial, s, Attempt(t, source, s, Completed(s.batches), size, limit, hash), limit)
    decreases limit
  {
    if limit > 0 && Completed(s.batches) < |source| {
      BatchStep(t, source, initial, s, size, hash);
      var batch := ImportBatch(t, source, s, Completed(s.batches), size, hash);
      if batch.None? {
        AdvancesRefused(t, source, initial, s, limit, Min(Completed(s.batches) + size, |source|));
      } else {
        var next := batch.value;
        var r := Attempt(t, source, next, Completed(next.batches), size, limit - 1, hash);
        AttemptKeeps(t, source, initial, next, size, limit - 1, hash);
        AdvancesThen(t, source, initial, s, next, r, limit);
        AttemptThen(t, source, s, next, size, limit, hash, r);
      }
    }
  }

  /** One batch of an attempt, and the rest of it. */
  lemma {:induction false} AttemptOnce(
      t: Table, source: seq<Row>, s: State, from: nat, size: nat, limit: nat, hash: seq<string> -> string)
    requires from < |source| && size > 0 && limit > 0
    ensures Attempt(t, source, s, from, size, limit, hash) ==
              match ImportBatch(t, source, s, from, size, hash)
              case None => s
              case Some(next) => Attempt(t, source, next, Min(from + size, |source|), size, limit - 1, hash)
  {
  }

  lemma {:induction false} AttemptThen(
      t: Table, source: seq<Row>, s: State, next: State, size: nat, limit: nat, hash: seq<string> -> string, r: State)
    requires limit > 0 && size > 0 && Completed(s.batches) < |source|
    requires ImportBatch(t, source, s, Completed(s.batches), size, hash) == Some(next)
    requires Completed(next.batches) == Min(Completed(s.batches) + size, |source|)
    requires r == Attempt(t, source, next, Completed(next.batches), size, limit - 1, hash)
    ensures r == Attempt(t, source, s, Completed(s.batches), size, limit, hash)
  {
    AttemptOnce(t, source, s, Completed(s.batches), size, limit, hash);
  }

  /** Crash-resumable import: after any sequence of calls, each stopped anywhere and
      each with its own batch size, the table holds its initial rows followed by exactly
      the fresh rows of the source prefix that the checkpoints count. */
  lemma {:induction false} CheckpointsTellTheTruth(
      t: Table, source: seq<Row>, initial: seq<Row>, s: State, calls: seq<Call>, hash: seq<string> -> string)
    requires Distinct(t, source) && forall i :: 0 <= i < |source| ==> source[i].identity != []
    requires Inv(t, source, initial, s)
    requires forall i :: 0 <= i < |calls| ==> calls[i].size > 0
    ensures Inv(t, source, initial, Resumed(t, source, s, calls, hash))
    decreases |calls|
  {
    if calls != [] {
      AttemptKeeps(t, source, initial, s, calls[0].size, calls[0].limit, hash);
      CheckpointsTellTheTruth(t, source, initial, Resume(t, source, s, calls[0].size, calls[0].limit, hash), calls[1..],
                              hash);
    }
  }

  /** A finished import, however interrupted, equals one uninterrupted import with any
      batch size; and an import can finish exactly when no destination row disagrees
      with the source. */
  lemma {:induction false} ResumedEqualsCleanRun(
      t: Table, source: seq<Row>, initial: seq<Row>, calls: seq<Call>, size: nat, hash: seq<string> -> string)
    requires Distinct(t, source) && forall i :: 0 <= i < |source| ==> source[i].identity != []
    requires size > 0 && forall i :: 0 <= i < |calls| ==> calls[i].size > 0
    ensures var s := Resumed(t, source, State(initial, []), calls, hash);
            var clean := Resume(t, source, State(initial, []), size, |source|, hash);
            && (Completed(s.batches) == |source| ==>
                  s.rows == clean.rows == initial + Fresh(t, initial, source) && Completed(clean.batches) == |source|)
            && (Completed(clean.batches) == |source| <==> AllAccepted(t, source, initial, 0, |source|))
  {
    var start := State(initial, []);
    assert source[..0] == [] && source[..|source|] == source;
    assert initial + [] == initial;
    CheckpointsTellTheTruth(t, source, initial, start, calls, hash);
    AttemptKeeps(t, source, initial, start, size, |source|, hash);
  }

  // ----------------------------------------------------- each source row exactly once

  /** The fresh rows are the source rows that the destination did not hold, each as often
      as in the source. */
  lemma {:induction false} FreshCounts(t: Table, initial: seq<Row>, source: seq<Row>, row: Row)
    ensures multiset(Fresh(t, initial, source))[row] == if Stored(t, initial, row) then 0 else multiset(source)[row]
    decreases |source|
  {
    if source != [] {
      var before, last := source[..|source| - 1], source[|source| - 1];
      FreshCounts(t, initial, before, row);
      assert source == before + [last];
      CountLast(before, last, row);
      CountLast(Fresh(t, initial, before), last, row);
    }
  }

  lemma {:induction false} AppendKeepsDistinct(t: Table, rows: seq<Row>, row: Row)
    requires Distinct(t, rows) && !Stored(t, rows, row)
    ensures Distinct(t, rows + [row])
  {
    forall i | 0 <= i < |rows| ensures !Clash(t, rows[i], row) {
    }
  }

  /** The destination keeps its own constraints. */
  lemma {:induction false} ImportKeepsDistinct(t: Table, initial: seq<Row>, source: seq<Row>, n: nat)
    requires Distinct(t, initial) && Distinct(t, source) && n <= |source|
    ensures Distinct(t, initial + Fresh(t, initial, source[..n]))
    decreases n
  {
    if n == 0 {
      assert initial + [] == initial;
    } else {
      var added, row := Fresh(t, initial, source[..n - 1]), source[n - 1];
      ImportKeepsDistinct(t, initial, source, n - 1);
      assert source[..n][..n - 1] == source[..n - 1];
      NotAmongFresh(t, initial, source, n - 1);
      StoredAppend(t, initial, added, row);
      if Stored(t, initial, row) {
        assert Fresh(t, initial, source[..n]) == added;
      } else {
        AppendKeepsDistinct(t, initial + added, row);
        assert initial + Fresh(t, initial, source[..n]) == initial + added + [row];
      }
    }
  }

  lemma {:induction false} NotAmongFresh(t: Table, initial: seq<Row>, source: seq<Row>, n: nat)
    requires Distinct(t, source) && n < |source|
    ensures !Stored(t, Fresh(t, initial, source[..n]), source[n])
  {
    var added := Fresh(t, initial, source[..n]);
    forall i | 0 <= i < |added| ensures !Clash(t, added[i], source[n]) {
      FreshFromSource(t, initial, source[..n], i);
    }
  }

  /** Rows that clash with themselves stand at most once among distinct ones. */
  lemma {:induction false} HeldAtMostOnce(t: Table, rows: seq<Row>, row: Row)
    requires Distinct(t, rows) && Clash(t, row, row)
    ensures multiset(rows)[row] <= 1
    decreases |rows|
  {
    if rows != [] {
      var before, last := rows[..|rows| - 1], rows[|rows| - 1];
      HeldAtMostOnce(t, before, row);
      assert rows == before + [last];
      CountLast(before, last, row);
      forall i | 0 <= i < |before| ensures before[i] == last ==> last != row {
        assert !Clash(t, rows[i], rows[|rows| - 1]);
      }
    }
  }

  lemma {:induction false} ImportHolds(t: Table, initial: seq<Row>, source: seq<Row>, n: nat)
    requires n < |source| && Accepts(t, initial, source[n])
    ensures source[n] in initial + Fresh(t, initial, source)
  {
    LookupFound(initial, source[n]);
    if !Stored(t, initial, source[n]) {
      FreshCounts(t, initial, source, source[n]);
      assert source[n] in Fresh(t, initial, source);
    }
  }

  /** A finished import, however interrupted, leaves the destination within its
      constraints and holding each source row exactly once, after its own rows and with
      nothing else. */
  lemma {:induction false} FinishedImportHoldsOnce(
      t: Table, source: seq<Row>, initial: seq<Row>, calls: seq<Call>, hash: seq<string> -> string, n: nat)
    requires Distinct(t, source) && forall i :: 0 <= i < |source| ==> source[i].identity != []
    requires Distinct(t, initial) && n < |source|
    requires forall i :: 0 <= i < |calls| ==> calls[i].size > 0
    requires Completed(Resumed(t, source, State(initial, []), calls, hash).batches) == |source|
    ensures var rows := Resumed(t, source, State(initial, []), calls, hash).rows;
      && Distinct(t, rows) && multiset(rows)[source[n]] == 1
      && initial <= rows && forall row :: row in rows ==> row in initial || row in source
  {
    var rows := initial + Fresh(t, initial, source);
    ResumedEqualsCleanRun(t, source, initial, calls, 1, hash);
    assert source[..|source|] == source;
    ImportKeepsDistinct(t, initial, source, |source|);
    StoresItself(t, source, n);
    HeldAtMostOnce(t, rows, source[n]);
    ImportHolds(t, initial, source, n);
    assert multiset(rows)[source[n]] > 0;
    forall row | row in rows ensures row in initial || row in source {
      FreshCounts(t, initial, source, row);
      assert multiset(rows) == multiset(initial) + multiset(Fresh(t, initial, source));
      assert row in multiset(rows);
    }
  }

  // ------------------------------------------------- verifying a completed run

  /** `_verify_completed_run` offers every source row to the table again. */
  ghost predicate Reverifies(t: Table, rows: seq<Row>, source: seq<Row>) {
    forall i :: 0 <= i < |source| ==> Insert(t, rows, source[i]) == Some(rows)
  }

  /** The index that `Lookup` stops at. */
  lemma {:induction false} FirstSharing(rows: seq<Row>, row: Row, n: nat) returns (first: nat)
    requires n < |rows| && SharesColumn(rows[n].identity, row.identity)
    ensures first <= n && SharesColumn(rows[first].identity, row.identity) && Lookup(rows, row) == Some(rows[first])
    ensures forall j :: 0 <= j < first ==> !SharesColumn(rows[j].identity, row.identity)
    decreases n
  {
    if SharesColumn(rows[0].identity, row.identity) {
      first := 0;
    } else {
      first := FirstSharing(rows[1..], row, n - 1);
      first := first + 1;
      assert rows[first] == rows[1..][first - 1];
      assert forall j :: 0 < j < first ==> rows[j] == rows[1..][j - 1];
    }
  }

  /** A source row shares no identity column with the destination's own rows, nor with
      an earlier source row that was fresh. */
  ghost predicate Alone(t: Table, initial: seq<Row>, source: seq<Row>, n: nat)
    requires n < |source|
  {
    && (forall i :: 0 <= i < |initial| ==> !SharesColumn(initial[i].identity, source[n].identity))
    && (forall m :: 0 <= m < n && SharesColumn(source[m].identity, source[n].identity) ==>
          Stored(t, initial, source[m]))
  }

  ghost predicate FreshRowsAlone(t: Table, initial: seq<Row>, source: seq<Row>) {
    forall n :: 0 <= n < |source| && !Stored(t, initial, source[n]) ==> Alone(t, initial, source, n)
  }

  /** Verifying a finished import: the lookup by any identity column finds the wrong row
      as soon as a fresh row has one identity column in common with a row before it.  So
      verification succeeds exactly when no fresh row does. */
  lemma {:induction false} VerificationSucceedsIff(t: Table, initial: seq<Row>, source: seq<Row>)
    requires Distinct(t, source) && forall i :: 0 <= i < |source| ==> source[i].identity != []
    requires AllAccepted(t, source, initial, 0, |source|)
    ensures Reverifies(t, initial + Fresh(t, initial, source), source) <==> FreshRowsAlone(t, initial, source)
  {
    forall n | 0 <= n < |source|
      ensures var rows := initial + Fresh(t, initial, source);
              var alone := !Stored(t, initial, source[n]) ==> Alone(t, initial, source, n);
              Insert(t, rows, source[n]) == Some(rows) <==> alone
    {
      if Stored(t, initial, source[n]) {
        StoredRowVerifies(t, initial, source, n);
      } else {
        FreshRowVerifiesIff(t, initial, source, n);
      }
    }
  }

  /** The same of a run: however often the import was interrupted, once it is finished its
      verification succeeds exactly when no fresh row shares an identity column. */
  lemma {:induction false} FinishedImportVerifiesIff(
      t: Table, source: seq<Row>, initial: seq<Row>, calls: seq<Call>, hash: seq<string> -> string)
    requires Distinct(t, source) && forall i :: 0 <= i < |source| ==> source[i].identity != []
    requires forall i :: 0 <= i < |calls| ==> calls[i].size > 0
    requires Completed(Resumed(t, source, State(initial, []), calls, hash).batches) == |source|
    ensures Reverifies(t, Resumed(t, source, State(initial, []), calls, hash).rows, source)
       <==> FreshRowsAlone(t, initial, source)
  {
    ResumedEqualsCleanRun(t, source, initial, calls, 1, hash);
    VerificationSucceedsIff(t, initial, source);
  }

  lemma {:induction false} StoredAppend(t: Table, a: seq<Row>, b: seq<Row>, row: Row)
    ensures Stored(t, a + b, row) <==> Stored(t, a, row) || Stored(t, b, row)
  {
    if i :| 0 <= i < |a| && Clash(t, a[i], row) { assert (a + b)[i] == a[i]; }
    if i :| 0 <= i < |b| && Clash(t, b[i], row) { assert (a + b)[|a| + i] == b[i]; }
  }

  lemma {:induction false} StoredRowVerifies(t: Table, initial: seq<Row>, source: seq<Row>, n: nat)
    requires n < |source| && Stored(t, initial, source[n]) && Accepts(t, initial, source[n])
    ensures var rows := initial + Fresh(t, initial, source); Insert(t, rows, source[n]) == Some(rows)
  {
    StoredAppend(t, initial, Fresh(t, initial, source), source[n]);
    LookupPrefix(initial, Fresh(t, initial, source), source[n]);
  }

  lemma {:induction false} FreshRowVerifiesIff(t: Table, initial: seq<Row>, source: seq<Row>, n: nat)
    requires n < |source| && !Stored(t, initial, source[n])
    requires Distinct(t, source) && forall i :: 0 <= i < |source| ==> source[i].identity != []
    ensures var rows := initial + Fresh(t, initial, source);
            Insert(t, rows, source[n]) == Some(rows) <==> Alone(t, initial, source, n)
  {
    var row, added := source[n], Fresh(t, initial, source);
    StoresItself(t, source, n);
    FreshHolds(t, initial, source, n);
    StoredAppend(t, initial, added, row);
    LookupPrefix(initial, added, row);
    if i :| 0 <= i < |initial| && SharesColumn(initial[i].identity, row.identity) {
      var first := FirstSharing(initial, row, i);
      assert initial[first] != row;
    } else {
      NoneShares(initial, row);
      var first := FirstFreshSharing(t, initial, source, n, n);
      FreshLookup(t, initial, source, row, first);
      if first < n { DistinctDiffer(t, source, first, n); }
    }
  }

  /** The first fresh source row to share an identity column with the one at `n`. */
  lemma {:induction false} FirstFreshSharing(t: Table, initial: seq<Row>, source: seq<Row>, n: nat, bound: nat)
    returns (first: nat)
    requires bound <= n < |source| && !Stored(t, initial, source[n])
    requires SharesColumn(source[n].identity, source[n].identity)
    ensures first < bound || first == n
    ensures !Stored(t, initial, source[first]) && SharesColumn(source[first].identity, source[n].identity)
    ensures forall m :: 0 <= m < first && m < bound && SharesColumn(source[m].identity, source[n].identity) ==>
              Stored(t, initial, source[m])
    decreases bound
  {
    if bound == 0 {
      first := n;
    } else {
      first := FirstFreshSharing(t, initial, source, n, bound - 1);
      if first == n && !Stored(t, initial, source[bound - 1])
         && SharesColumn(source[bound - 1].identity, source[n].identity) {
        first := bound - 1;
      }
    }
  }

  lemma {:induction false} NoneShares(rows: seq<Row>, row: Row)
    requires forall i :: 0 <= i < |rows| ==> !SharesColumn(rows[i].identity, row.identity)
    ensures Lookup(rows, row) == None
  {
    LookupFound(rows, row);
  }

  lemma {:induction false} FreshHolds(t: Table, initial: seq<Row>, source: seq<Row>, n: nat)
    requires n < |source| && !Stored(t, initial, source[n]) && Clash(t, source[n], source[n])
    ensures Stored(t, Fresh(t, initial, source), source[n])
    decreases |source|
  {
    var before := source[..|source| - 1];
    var added := Fresh(t, initial, before);
    if n < |before| {
      FreshHolds(t, initial, before, n);
      StoredAppend(t, added, if Stored(t, initial, source[|source| - 1]) then [] else [source[|source| - 1]],
                   source[n]);
    } else {
      assert Fresh(t, initial, source)[|added|] == source[n];
    }
  }

  lemma {:induction false} FreshLookup(t: Table, initial: seq<Row>, source: seq<Row>, row: Row, first: nat)
    requires first < |source| && !Stored(t, initial, source[first])
    requires SharesColumn(source[first].identity, row.identity)
    requires forall m :: 0 <= m < first && SharesColumn(source[m].identity, row.identity) ==>
               Stored(t, initial, source[m])
    ensures Lookup(Fresh(t, initial, source), row) == Some(source[first])
    decreases |source|
  {
    var before, last := source[..|source| - 1], source[|source| - 1];
    var added := Fresh(t, initial, before);
    LookupPrefix(added, if Stored(t, initial, last) then [] else [last], row);
    if first < |before| {
      FreshLookup(t, initial, before, row, first);
    } else {
      forall i | 0 <= i < |added| ensures !SharesColumn(added[i].identity, row.identity) {
        FreshFromSource(t, initial, before, i);
      }
      NoneShares(added, row);
      assert Lookup([last], row) == Some(last);
    }
  }

  lemma {:induction false} StoresItself(t: Table, source: seq<Row>, n: nat)
    requires n < |source| && source[n].identity != []
    ensures Clash(t, source[n], source[n]) && Stored(t, source, source[n])
    ensures SharesColumn(source[n].identity, source[n].identity)
  {
    assert source[n].identity[0] == source[n].identity[0];
  }

  lemma {:induction false} DistinctDiffer(t: Table, source: seq<Row>, i: nat, j: nat)
    requires i < j < |source| && Distinct(t, source) && source[j].identity != []
    ensures source[i] != source[j]
  {
    assert SharesColumn(source[j].identity, source[j].identity) by {
      assert source[j].identity[0] == source[j].identity[0];
    }
  }

  /** Where every identity column is unique by itself, every finished import verifies. */
  lemma {:induction false} SingleColumnTablesVerify(t: Table, initial: seq<Row>, source: seq<Row>)
    requires !t.composite && Distinct(t, source) && forall i :: 0 <= i < |source| ==> source[i].identity != []
    requires AllAccepted(t, source, initial, 0, |source|)
    ensures Reverifies(t, initial + Fresh(t, initial, source), source)
  {
    forall n | 0 <= n < |source| && !Stored(t, initial, source[n]) ensures Alone(t, initial, source, n) {
      forall i | 0 <= i < |initial| ensures !SharesColumn(initial[i].identity, source[n].identity) {
        assert !Clash(t, initial[i], source[n]);
      }
    }
    VerificationSucceedsIff(t, initial, source);
  }

  /** Two route decisions of one tenant import cleanly and then fail verification. */
  lemma {:induction false} TwoDecisionsOfOneTenant()
    ensures var t := Table(true);
            var source := [Row(["tenant", "req_1"], [], "a"), Row(["tenant", "req_2"], [], "b")];
            && Distinct(t, source)
            && AllAccepted(t, source, [], 0, |source|)
            && !Reverifies(t, [] + Fresh(t, [], source), source)
  {
    var t := Table(true);
    var source := [Row(["tenant", "req_1"], [], "a"), Row(["tenant", "req_2"], [], "b")];
    assert source[0].identity[1] != source[1].identity[1];
    assert source[0].identity[0] == source[1].identity[0];
    VerificationSucceedsIff(t, [], source);
    assert SharesColumn(source[0].identity, source[1].identity);
    assert !Alone(t, [], source, 1);
  }

  /** So does one decision of a tenant that the destination already has another of. */
  lemma {:induction false} DecisionBesideAnother()
    ensures var t := Table(true);
            var initial := [Row(["tenant", "req_9"], [], "x")];
            var source := [Row(["tenant", "req_1"], [], "a")];
            && Distinct(t, source)
            && AllAccepted(t, source, initial, 0, |source|)
            && !Reverifies(t, initial + Fresh(t, initial, source), source)
  {
    var t := Table(true);
    var initial := [Row(["tenant", "req_9"], [], "x")];
    var source := [Row(["tenant", "req_1"], [], "a")];
    assert initial[0].identity[1] != source[0].identity[1];
    assert initial[0].identity[0] == source[0].identity[0];
    VerificationSucceedsIff(t, initial, source);
    assert SharesColumn(initial[0].identity, source[0].identity);
    assert !Alone(t, initial, source, 0);
  }

  // ------------------------------------------------------------- Redis entities

  /** A converted row of idempotency_records or circuit_states. */
  datatype Pair = Pair(key: string, payload: string)

  datatype RedisState = RedisState(store: map<string, string>, completed: nat)

  predicate Agrees(store: map<string, string>, row: Pair) { row.key in store ==> store[row.key] == row.payload }

  /** `_insert_idempotency` and `_insert_circuit` over rows in order: set if absent, else
      compare; the first disagreement stops.  Also returns how many rows went in. */
  function Put(store: map<string, string>, rows: seq<Pair>): (r: (map<string, string>, nat))
    ensures r.1 <= |rows|
    decreases |rows|
  {
    if rows == [] || !Agrees(store, rows[0]) then (store, 0) else
      var (rest, n) := Put(store[rows[0].key := rows[0].payload], rows[1..]);
      (rest, n + 1)
  }

  /** A call offers some rows and stops, perhaps in the middle of a batch: rows it wrote
      after its last checkpoint are in Redis and in no checkpoint. */
  datatype RedisCall = RedisCall(offered: nat, checkpointed: nat)

  function PutOffered(source: seq<Pair>, s: RedisState, c: RedisCall): (map<string, string>, nat)
    requires s.completed + c.offered <= |source|
  {
    Put(s.store, source[s.completed..s.completed + c.offered])
  }

  predicate RedisAllowed(source: seq<Pair>, s: RedisState, c: RedisCall) {
    s.completed + c.offered <= |source| && c.checkpointed <= PutOffered(source, s, c).1
  }

  function RedisResume(source: seq<Pair>, s: RedisState, c: RedisCall): RedisState
    requires RedisAllowed(source, s, c)
  {
    RedisState(PutOffered(source, s, c).0, s.completed + c.checkpointed)
  }

  predicate RedisRun(source: seq<Pair>, s: RedisState, calls: seq<RedisCall>)
    decreases |calls|
  {
    calls == [] || (RedisAllowed(source, s, calls[0]) && RedisRun(source, RedisResume(source, s, calls[0]), calls[1..]))
  }

  function RedisResumed(source: seq<Pair>, s: RedisState, calls: seq<RedisCall>): RedisState
    requires RedisRun(source, s, calls)
    decreases |calls|
  {
    if calls == [] then s else RedisResumed(source, RedisResume(source, s, calls[0]), calls[1..])
  }

  ghost predicate DistinctKeys(source: seq<Pair>) {
    forall i, j :: 0 <= i < j < |source| ==> source[i].key != source[j].key
  }

  function Overlay(initial: map<string, string>, rows: seq<Pair>): map<string, string>
    decreases |rows|
  {
    if rows == [] then initial else
      var last := rows[|rows| - 1];
      Overlay(initial, rows[..|rows| - 1])[last.key := last.payload]
  }

  /** The store is the initial one with the first `n` rows laid over it, and none of
      those rows contradicted it. */
  ghost predicate Holds(source: seq<Pair>, initial: map<string, string>, store: map<string, string>, n: nat) {
    n <= |source| && store == Overlay(initial, source[..n]) && forall i :: 0 <= i < n ==> Agrees(initial, source[i])
  }

  lemma {:induction false} OverlayRow(source: seq<Pair>, initial: map<string, string>, n: nat, i: nat)
    requires DistinctKeys(source) && n <= |source| && i < |source|
    ensures var store := Overlay(initial, source[..n]);
            if i < n then source[i].key in store && store[source[i].key] == source[i].payload
            else Agrees(store, source[i]) <==> Agrees(initial, source[i])
    decreases n
  {
    if n > 0 {
      assert source[..n][..n - 1] == source[..n - 1];
      OverlayRow(source, initial, n - 1, i);
      assert i != n - 1 ==> source[i].key != source[n - 1].key;
    }
  }

  /** `count` rows from `from` on went in, and the next one, if any, was contradicted. */
  ghost predicate Reaches(
      source: seq<Pair>, initial: map<string, string>, after: map<string, string>, n: nat, from: nat, end: nat,
      count: nat) {
    && from + count <= end <= |source|
    && Holds(source, initial, after, Max(n, from + count))
    && (forall i :: from <= i < from + count ==> Agrees(initial, source[i]))
    && (from + count < end ==> !Agrees(initial, source[from + count]))
  }

  lemma {:induction false} PutReaches(
      source: seq<Pair>, initial: map<string, string>, store: map<string, string>, n: nat, from: nat, end: nat)
    requires DistinctKeys(source) && from <= end <= |source| && from <= n && Holds(source, initial, store, n)
    ensures var r := Put(store, source[from..end]); Reaches(source, initial, r.0, n, from, end, r.1)
    decreases end - from
  {
    if from == end {
      assert source[from..end] == [];
    } else if Agrees(initial, source[from]) {
      PutNext(source, initial, store, n, from);
      PutReaches(source, initial, store[source[from].key := source[from].payload], Max(n, from + 1), from + 1, end);
      PutReachesMore(source, initial, store, n, from, end);
    } else {
      PutStops(source, initial, store, n, from, end);
    }
  }

  lemma {:induction false} PutReachesMore(
      source: seq<Pair>, initial: map<string, string>, store: map<string, string>, n: nat, from: nat, end: nat)
    requires DistinctKeys(source) && from < end <= |source| && from <= n && Holds(source, initial, store, n)
    requires Agrees(initial, source[from])
    requires var r := Put(store[source[from].key := source[from].payload], source[from + 1..end]);
      Reaches(source, initial, r.0, Max(n, from + 1), from + 1, end, r.1)
    ensures var r := Put(store, source[from..end]); Reaches(source, initial, r.0, n, from, end, r.1)
  {
    OverlayRow(source, initial, n, from);
    PutCons(store, source, from, end);
    var r := Put(store[source[from].key := source[from].payload], source[from + 1..end]);
    ReachesNext(source, initial, r.0, n, from, end, r.1);
  }

  lemma {:induction false} PutStops(
      source: seq<Pair>, initial: map<string, string>, store: map<string, string>, n: nat, from: nat, end: nat)
    requires DistinctKeys(source) && from < end <= |source| && from <= n && Holds(source, initial, store, n)
    requires !Agrees(initial, source[from])
    ensures var r := Put(store, source[from..end]); Reaches(source, initial, r.0, n, from, end, r.1)
  {
    OverlayRow(source, initial, n, from);
    assert Put(store, source[from..end]) == (store, 0);
  }

  lemma {:induction false} PutCons(store: map<string, string>, source: seq<Pair>, from: nat, end: nat)
    requires from < end <= |source| && Agrees(store, source[from])
    ensures var tail := Put(store[source[from].key := source[from].payload], source[from + 1..end]);
            Put(store, source[from..end]) == (tail.0, tail.1 + 1)
  {
    assert source[from..end][1..] == source[from + 1..end];
  }

  lemma {:induction false} ReachesNext(
      source: seq<Pair>, initial: map<string, string>, after: map<string, string>, n: nat, from: nat, end: nat,
      count: nat)
    requires from < |source| && from <= n && Agrees(initial, source[from])
    requires Reaches(source, initial, after, Max(n, from + 1), from + 1, end, count)
    ensures Reaches(source, initial, after, n, from, end, count + 1)
  {
    assert Max(Max(n, from + 1), from + 1 + count) == Max(n, from + count + 1);
  }

  lemma {:induction false} PutNext(
      source: seq<Pair>, initial: map<string, string>, store: map<string, string>, n: nat, from: nat)
    requires DistinctKeys(source) && from < |source| && from <= n && Holds(source, initial, store, n)
    requires Agrees(initial, source[from])
    ensures Holds(source, initial, store[source[from].key := source[from].payload], Max(n, from + 1))
  {
    OverlayRow(source, initial, n, from);
    if from == n {
      assert source[..n + 1][..n] == source[..n];
    } else {
      assert store[source[from].key := source[from].payload] == store;
    }
  }

  lemma {:induction false} RedisKeeps(
      source: seq<Pair>, initial: map<string, string>, s: RedisState, calls: seq<RedisCall>, n: nat)
    returns (reached: nat)
    requires DistinctKeys(source) && RedisRun(source, s, calls) && s.completed <= n
    requires Holds(source, initial, s.store, n)
    ensures var r := RedisResumed(source, s, calls); r.completed <= reached && Holds(source, initial, r.store, reached)
    decreases |calls|
  {
    reached := n;
    if calls != [] {
      reached := RedisCallKeeps(source, initial, s, calls[0], n);
      reached := RedisKeeps(source, initial, RedisResume(source, s, calls[0]), calls[1..], reached);
    }
  }

  lemma {:induction false} OfferedHolds(
      source: seq<Pair>, initial: map<string, string>, s: RedisState, c: RedisCall, n: nat)
    requires DistinctKeys(source) && s.completed + c.offered <= |source|
    requires s.completed <= n && Holds(source, initial, s.store, n)
    ensures var r := PutOffered(source, s, c); Holds(source, initial, r.0, Max(n, s.completed + r.1))
  {
    PutReaches(source, initial, s.store, n, s.completed, s.completed + c.offered);
  }

  lemma {:induction false} RedisCallKeeps(
      source: seq<Pair>, initial: map<string, string>, s: RedisState, c: RedisCall, n: nat)
    returns (reached: nat)
    requires DistinctKeys(source) && RedisAllowed(source, s, c) && s.completed <= n
    requires Holds(source, initial, s.store, n)
    ensures RedisResume(source, s, c).completed <= reached
    ensures Holds(source, initial, RedisResume(source, s, c).store, reached)
  {
    OfferedHolds(source, initial, s, c, n);
    reached := Max(n, s.completed + PutOffered(source, s, c).1);
  }

  lemma {:induction false} OverlayElsewhere(initial: map<string, string>, rows: seq<Pair>, key: string)
    requires forall i :: 0 <= i < |rows| ==> rows[i].key != key
    ensures key in Overlay(initial, rows) <==> key in initial
    ensures key in initial ==> Overlay(initial, rows)[key] == initial[key]
    decreases |rows|
  {
    if rows != [] { OverlayElsewhere(initial, rows[..|rows| - 1], key); }
  }

  /** Once the checkpoints cover the source, Redis holds the payload of every source row and
      all other keys are as they were. */
  lemma {:induction false} RedisHoldsEveryRow(
      source: seq<Pair>, initial: map<string, string>, calls: seq<RedisCall>, n: nat, key: string)
    requires DistinctKeys(source) && RedisRun(source, RedisState(initial, 0), calls) && n < |source|
    requires RedisResumed(source, RedisState(initial, 0), calls).completed == |source|
    requires forall i :: 0 <= i < |source| ==> source[i].key != key
    ensures var store := RedisResumed(source, RedisState(initial, 0), calls).store;
      && source[n].key in store && store[source[n].key] == source[n].payload
      && (key in store <==> key in initial) && (key in initial ==> store[key] == initial[key])
  {
    var reached := RedisKeeps(source, initial, RedisState(initial, 0), calls, 0);
    OverlayRow(source, initial, |source|, n);
    assert source[..|source|] == source;
    OverlayElsewhere(initial, source, key);
  }

  /** Although rows and checkpoint are not one transaction, every run of interrupted
      calls whose checkpoints cover the source leaves Redis as one clean pass does; and
      a clean pass covers it exactly when Redis contradicted no row to begin with. */
  lemma {:induction false} RedisResumedEqualsCleanRun(
      source: seq<Pair>, initial: map<string, string>, calls: seq<RedisCall>)
    requires DistinctKeys(source) && RedisRun(source, RedisState(initial, 0), calls)
    ensures var r := RedisResumed(source, RedisState(initial, 0), calls);
            var (clean, count) := Put(initial, source);
            && (r.completed == |source| ==> r.store == clean && count == |source|)
            && (count == |source| <==> forall i :: 0 <= i < |source| ==> Agrees(initial, source[i]))
  {
    assert source[0..|source|] == source;
    var reached := RedisKeeps(source, initial, RedisState(initial, 0), calls, 0);
    PutReaches(source, initial, initial, 0, 0, |source|);
    var r := RedisResumed(source, RedisState(initial, 0), calls);
  }

  // ---------------------------------------------------------------- the importer

  class Importer {
    var rows: seq<Row>
    var batches: seq<Batch>

    ghost function Contents(): State
      reads this
    {
      State(rows, batches)
    }

    constructor (rows: seq<Row>)
      ensures Contents() == State(rows, [])
    {
      this.rows, this.batches := rows, [];
    }

    /** One transaction: the rows of a batch and their checkpoint, or nothing. */
    method Commit(t: Table, source: seq<Row>, from: nat, size: nat, hash: seq<string> -> string) returns (ok: bool)
      requires from < |source| && size > 0
      modifies this
      ensures match ImportBatch(t, source, old(Contents()), from, size, hash)
              case None => !ok && Contents() == old(Contents())
              case Some(next) => ok && Contents() == next
    {
      var batch := source[from..Min(from + size, |source|)];
      var stored := rows;
      for i := 0 to |batch|
        invariant InsertAll(t, old(rows), batch[..i]) == Some(stored)
        invariant rows == old(rows) && batches == old(batches)
      {
        InsertAllSnoc(t, rows, batch[..i], batch[i]);
        assert batch[..i + 1] == batch[..i] + [batch[i]];
        match Insert(t, stored, batch[i]) {
          case None =>
            InsertAllStops(t, rows, batch, i + 1);
            return false;
          case Some(more) => stored := more;
        }
      }
      assert batch[..|batch|] == batch;
      rows := stored;
      batches := Record(batches, Batch(from + |batch|, Digest(batch[|batch| - 1], hash), |batch|));
      return true;
    }

    /** `_migrate_sql_entity`, stopped after at most `limit` batches. */
    method MigrateSqlEntity(t: Table, source: seq<Row>, size: nat, limit: nat, hash: seq<string> -> string)
      requires size > 0
      modifies this
      ensures Contents() == Resume(t, source, old(Contents()), size, limit, hash)
    {
      var completed: nat := Completed(batches);
      var left := limit;
      while left > 0 && completed < |source|
        invariant Attempt(t, source, Contents(), completed, size, left, hash)
             == Resume(t, source, old(Contents()), size, limit, hash)
        decreases left
      {
        ghost var s := Contents();
        var ok := Commit(t, source, completed, size, hash);
        AttemptOnce(t, source, s, completed, size, left, hash);
        if !ok { return; }
        completed := Min(completed + size, |source|);
        left := left - 1;
      }
    }
  }

  lemma {:induction false} InsertAllStops(t: Table, rows: seq<Row>, batch: seq<Row>, n: nat)
    requires n <= |batch| && InsertAll(t, rows, batch[..n]) == None
    ensures InsertAll(t, rows, batch) == None
    decreases |batch|
  {
    if n == |batch| {
      assert batch[..n] == batch;
    } else {
      assert batch[..|batch| - 1][..n] == batch[..n];
      InsertAllStops(t, rows, batch[..|batch| - 1], n);
    }
  }
}
