/** Buffering rows per partition and flushing them into files that are never overwritten. */
module Writer {
  import opened Market

  /** A row maps columns to values; a column may be there and hold a null. */
  type Row<V> = map<string, Option<V>>

  /** A file is a partition and a part number. */
  type Files<!K(==), V> = map<(K, nat), seq<Row<V>>>

  datatype Outcome = Done | WriterClosed | MissingTime | Incomplete

  /** A table: its time column, the partition a time falls into, the columns that may
      not be null, and the values filled in where a row lacks the column. */
  datatype Table<!K(==), !V> = Table(timeColumn: string, partitionOf: V -> K, required: set<string>, defaults: Row<V>) {
    /** A column that is there keeps what it holds, even a null. */
    function Complete(row: Row<V>): Row<V> {
      defaults + row
    }

    /** Completing a row keeps every column it has, even a null, gives it the defaults for the
        columns it lacks, and adds no other; so its partition is that of its own time, if it has one. */
    lemma CompleteKeeps(row: Row<V>)
      ensures forall column :: column in Complete(row) <==> column in row || column in defaults
      ensures forall column :: column in row ==> Complete(row)[column] == row[column]
      ensures forall column :: column in defaults && column !in row ==> Complete(row)[column] == defaults[column]
      ensures HasTime(row) ==> HasTime(Complete(row)) && KeyOf(Complete(row)) == partitionOf(row[timeColumn].value)
    {
      assert Complete(row).Keys == row.Keys + defaults.Keys;
    }

    predicate Holds(row: Row<V>, column: string) {
      column in row && row[column].Some?
    }

    predicate HasTime(row: Row<V>) {
      Holds(row, timeColumn)
    }

    function KeyOf(row: Row<V>): K
      requires HasTime(row)
    {
      partitionOf(row[timeColumn].value)
    }

    /** Every required column has a value. */
    predicate Writable(row: Row<V>) {
      forall column :: column in required ==> Holds(row, column)
    }

    /** The first `n` rows of a batch, completed. */
    function CompleteAll(rows: seq<Row<V>>, n: nat): seq<Row<V>>
      requires n <= |rows|
    {
      if n == 0 then [] else CompleteAll(rows, n - 1) + [Complete(rows[n - 1])]
    }

    /** Every row of a batch can be written once completed. */
    predicate Sound(rows: seq<Row<V>>) {
      forall i :: 0 <= i < |rows| ==> Writable(Complete(rows[i]))
    }

    /** Every row of a batch has its time once completed. */
    predicate Timed(rows: seq<Row<V>>) {
      forall i :: 0 <= i < |rows| ==> HasTime(Complete(rows[i]))
    }

    predicate Encodable(rows: seq<Row<V>>) {
      forall i :: 0 <= i < |rows| ==> Writable(rows[i])
    }

    /** Some row lacks a required column, or holds a null in it. */
    ghost predicate SomethingMissing(rows: seq<Row<V>>) {
      exists i, column :: 0 <= i < |rows| && column in required && (column in rows[i] ==> rows[i][column].None?)
    }

    lemma MissingIs(rows: seq<Row<V>>)
      ensures SomethingMissing(rows) <==> !Encodable(rows)
    {
    }

    /** The rows of one partition, in order. */
    function RowsOf(rows: seq<Row<V>>, key: K): seq<Row<V>>
      requires forall i :: 0 <= i < |rows| ==> HasTime(rows[i])
    {
      if rows == [] then []
      else
        var n := |rows| - 1;
        RowsOf(rows[..n], key) + if KeyOf(rows[n]) == key then [rows[n]] else []
    }

    /** A row more for its partition's buffer: parts and buffer still spell the partition's rows. */
    lemma StillKept(parts: seq<Row<V>>, buffer: seq<Row<V>>, rows: seq<Row<V>>, row: Row<V>, key: K)
      requires HasTime(row) && forall i :: 0 <= i < |rows| ==> HasTime(rows[i])
      requires parts + buffer == RowsOf(rows, key)
      ensures forall i :: 0 <= i < |rows + [row]| ==> HasTime((rows + [row])[i])
      ensures parts + (if KeyOf(row) == key then buffer + [row] else buffer) == RowsOf(rows + [row], key)
    {
      assert (rows + [row])[..|rows|] == rows;
      assert parts + (buffer + [row]) == (parts + buffer) + [row];
    }

    lemma CompleteAllStep(sofar: seq<Row<V>>, rows: seq<Row<V>>, i: nat)
      requires i < |rows|
      ensures sofar + CompleteAll(rows, i) + [Complete(rows[i])] == sofar + CompleteAll(rows, i + 1)
    {
    }

    /** A row added to a buffer below `cap` keeps it within; one added to a buffer that
        cannot be written leaves it so. */
    lemma StillFits(rows: seq<Row<V>>, row: Row<V>, cap: nat)
      requires |rows| < cap || !Encodable(rows)
      ensures Encodable(rows + [row]) ==> |rows + [row]| <= cap
    {
      assert forall i :: 0 <= i < |rows| ==> rows[i] == (rows + [row])[i];
    }
  }

  /** The parts of `key` below `n` that were written since the store held `before`, in index order. */
  ghost function Parts<K, V>(files: Files<K, V>, before: Files<K, V>, key: K, n: nat): seq<Row<V>> {
    if n == 0 then []
    else
      Parts(files, before, key, n - 1)
      + if (key, n - 1) in files && (key, n - 1) !in before then files[(key, n - 1)] else []
  }

  lemma {:induction false} PartsUnchanged<K, V>(files: Files<K, V>, files': Files<K, V>, before: Files<K, V>, key: K, n: nat)
    requires forall i: nat :: i < n ==> ((key, i) in files <==> (key, i) in files')
    requires forall i: nat :: i < n && (key, i) in files ==> files[(key, i)] == files'[(key, i)]
    ensures Parts(files, before, key, n) == Parts(files', before, key, n)
  {
    if n > 0 {
      PartsUnchanged(files, files', before, key, n - 1);
    }
  }

  /** Numbers that no part of this writer uses add nothing. */
  lemma {:induction false} PartsSkip<K, V>(files: Files<K, V>, before: Files<K, V>, key: K, n: nat, m: nat)
    requires n <= m
    requires forall i: nat :: n <= i < m && (key, i) in files ==> (key, i) in before
    ensures Parts(files, before, key, m) == Parts(files, before, key, n)
    decreases m
  {
    if n < m {
      PartsSkip(files, before, key, n, m - 1);
    }
  }

  /** Every file of `older` is in `newer`, with the same rows. */
  ghost predicate Grown<K, V>(older: Files<K, V>, newer: Files<K, V>) {
    forall f :: f in older ==> f in newer && newer[f] == older[f]
  }

  lemma GrownTwice<K, V>(a: Files<K, V>, b: Files<K, V>, c: Files<K, V>)
    requires Grown(a, b) && Grown(b, c)
    ensures Grown(a, c)
  {
  }

  /** A new part past all of this writer's parts adds its rows at the end. */
  lemma PartAdded<K, V>(files: Files<K, V>, before: Files<K, V>, key: K, next: nat, index: nat, rows: seq<Row<V>>)
    requires next <= index && (key, index) !in files && (key, index) !in before
    requires forall i: nat :: next <= i && (key, i) in files ==> (key, i) in before
    ensures Parts(files[(key, index) := rows], before, key, index + 1) == Parts(files, before, key, next) + rows
  {
    PartsSkip(files, before, key, next, index);
    PartsUnchanged(files, files[(key, index) := rows], before, key, index);
  }

  lemma OthersUntouched<K, V>(files: Files<K, V>, before: Files<K, V>, key: K, index: nat, rows: seq<Row<V>>, other: K, n: nat)
    requires other != key
    ensures Parts(files[(key, index) := rows], before, other, n) == Parts(files, before, other, n)
  {
    PartsUnchanged(files, files[(key, index) := rows], before, other, n);
  }

  /** Every file that is new in `newer` is a full one. */
  ghost predicate FullParts<K, V>(older: Files<K, V>, newer: Files<K, V>, cap: nat) {
    forall f :: f in newer && f !in older ==> |newer[f]| == cap
  }

  lemma FullTwice<K, V>(a: Files<K, V>, b: Files<K, V>, c: Files<K, V>, cap: nat)
    requires Grown(a, b) && Grown(b, c) && FullParts(a, b, cap) && FullParts(b, c, cap)
    ensures FullParts(a, c, cap)
  {
  }

  /** One part more, for `key`, holding `rows`, under the first number from `next` that is free. */
  ghost predicate OnePartMore<K, V>(older: Files<K, V>, newer: Files<K, V>, key: K, next: nat, rows: seq<Row<V>>) {
    exists index: nat :: index >= next && (key, index) !in older && newer == older[(key, index) := rows]
                         && forall i: nat :: next <= i < index ==> (key, i) in older
  }

  lemma OnePartAt<K, V>(older: Files<K, V>, newer: Files<K, V>, key: K, next: nat, index: nat, rows: seq<Row<V>>)
    requires index >= next && (key, index) !in older && newer == older[(key, index) := rows]
    requires forall i: nat :: next <= i < index ==> (key, i) in older
    ensures OnePartMore(older, newer, key, next, rows)
  {
  }

  /** The files from `index` up: what the search for a free number still has ahead of it. */
  ghost function Ahead<K, V>(files: Files<K, V>, key: K, index: nat): set<(K, nat)> {
    set f | f in files.Keys && f.0 == key && f.1 >= index
  }

  class FileStore<K(==), V> {
    var files: Files<K, V>

    constructor (files: Files<K, V>)
      ensures this.files == files
    {
      this.files := files;
    }
  }

  class PartitionedWriter<K(==,!new), V> {
    const table: Table<K, V>
    const cap: nat
    const store: FileStore<K, V>
    var buffers: map<K, seq<Row<V>>>
    var partIndex: map<K, nat>
    var filesWritten: nat
    var closed: bool
    /** The store as it was found, and the rows accepted since, as completed, in arrival order. */
    ghost const before: Files<K, V>
    ghost var accepted: seq<Row<V>>

    function Buffered(key: K): seq<Row<V>>
      reads this`buffers
    {
      if key in buffers then buffers[key] else []
    }

    function NextPart(key: K): nat
      reads this`partIndex
    {
      if key in partIndex then partIndex[key] else 0
    }

    ghost predicate Wired()
      reads this`accepted
    {
      && cap >= 1
      && forall i :: 0 <= i < |accepted| ==> table.HasTime(accepted[i])
    }

    /** Nothing that was in the store has been touched, and this writer's parts are in
        range and within the cap. */
    ghost predicate StoreKept()
      reads this`partIndex, this`filesWritten, store
    {
      && Grown(before, store.files)
      && (forall f :: f in store.files && f !in before ==> f.1 < NextPart(f.0) && 0 < |store.files[f]| <= cap)
      && |store.files| == |before| + filesWritten
    }

    /** The rows of `key` are all there: in its parts, and after them in its buffer. */
    ghost predicate Kept(key: K)
      requires Wired()
      reads this`buffers, this`partIndex, this`accepted, store
    {
      Parts(store.files, before, key, NextPart(key)) + Buffered(key) == table.RowsOf(accepted, key)
    }

    /** A buffer reaches the cap only when some row in it cannot be written. */
    ghost predicate Small(key: K)
      reads this`buffers
    {
      |Buffered(key)| < cap || !table.Encodable(Buffered(key))
    }

    /** The row's partition has room for another. */
    predicate Landed(row: Row<V>)
      reads this`buffers
    {
      table.HasTime(table.Complete(row)) && |Buffered(table.KeyOf(table.Complete(row)))| < cap
    }

    predicate AllLanded(rows: seq<Row<V>>, n: nat)
      requires n <= |rows|
      reads this`buffers
    {
      forall i :: 0 <= i < n ==> Landed(rows[i])
    }

    /** The row's partition is full and cannot be written. */
    predicate Stuck(row: Row<V>)
      reads this`buffers
    {
      table.HasTime(table.Complete(row))
      && var buffered := Buffered(table.KeyOf(table.Complete(row)));
         |buffered| >= cap && !table.Encodable(buffered)
    }

    /** Every buffered row can be written. */
    ghost predicate BuffersWritable()
      reads this`buffers
    {
      forall key: K :: table.Encodable(Buffered(key))
    }

    ghost predicate Valid()
      reads this`buffers, this`partIndex, this`filesWritten, this`accepted, store
    {
      Wired() && StoreKept() && forall key: K :: Kept(key) && Small(key)
    }

    constructor (table: Table<K, V>, store: FileStore<K, V>, maxRowsPerFlush: int)
      ensures Valid() && !closed && this.table == table && this.store == store
      ensures accepted == [] && before == store.files && cap == if maxRowsPerFlush > 1 then maxRowsPerFlush else 1
    {
      this.table, this.store := table, store;
      cap := if maxRowsPerFlush > 1 then maxRowsPerFlush else 1;
      buffers, partIndex := map[], map[];
      filesWritten, closed := 0, false;
      before, accepted := store.files, [];
    }

    /** The first free part number at or after `from`. */
    method FreePart(key: K, from: nat) returns (index: nat)
      ensures index >= from && (key, index) !in store.files
      ensures forall i: nat :: from <= i < index ==> (key, i) in store.files
    {
      index := from;
      while (key, index) in store.files
        invariant index >= from
        invariant forall i: nat :: from <= i < index ==> (key, i) in store.files
        decreases |Ahead(store.files, key, index)|
      {
        assert Ahead(store.files, key, index) == Ahead(store.files, key, index + 1) + {(key, index)};
        index := index + 1;
      }
    }

    /** Writes a partition's buffer as one new part; rows that cannot be encoded stay buffered. */
    method FlushPartition(key: K) returns (r: Outcome)
      requires Wired() && StoreKept() && forall k: K :: Kept(k)
      requires forall k: K :: k != key ==> Small(k)
      requires table.Encodable(Buffered(key)) ==> |Buffered(key)| <= cap
      modifies this`buffers, this`partIndex, this`filesWritten, store
      ensures Valid()
      ensures r.Done? <==> old(table.Encodable(Buffered(key)))
      ensures r.Done? || r.Incomplete?
      ensures r.Incomplete? <==> old(table.SomethingMissing(Buffered(key)))
      ensures r.Done? ==> Buffered(key) == []
      ensures r.Done? ==>
                if old(Buffered(key)) == [] then store.files == old(store.files)
                else OnePartMore(old(store.files), store.files, key, old(NextPart(key)), old(Buffered(key)))
      ensures r.Incomplete? ==> Buffered(key) == old(Buffered(key)) && store.files == old(store.files)
      ensures forall k: K :: k != key ==> Buffered(k) == old(Buffered(k))
      ensures buffers.Keys == old(buffers.Keys)
      ensures Grown(old(store.files), store.files)
    {
      var rows := Buffered(key);
      table.MissingIs(rows);
      if rows == [] {
        return Done;
      }
      var index := FreePart(key, NextPart(key));
      ClaimPart(key, index);
      if !table.Encodable(rows) {
        return Incomplete;
      }
      ghost var files := store.files;
      WritePart(key, index, rows);
      OnePartAt(files, store.files, key, old(NextPart(key)), index, rows);
      r := Done;
    }

    /** The part number is used up before the rows are encoded, so it stays used if that fails. */
    method ClaimPart(key: K, index: nat)
      requires Wired() && StoreKept() && forall k: K :: Kept(k)
      requires index >= NextPart(key) && (key, index) !in store.files
      modifies this`partIndex
      ensures StoreKept() && (forall k: K :: Kept(k)) && NextPart(key) == index + 1
    {
      ghost var next := NextPart(key);
      PartsSkip(store.files, before, key, next, index + 1);
      partIndex := partIndex[key := index + 1];
      forall k: K
        ensures Kept(k)
      {
        assert old(Kept(k));
      }
    }

    /** Past a number claimed but not yet written there are only files that were there before. */
    lemma NoPartsFrom(key: K, index: nat)
      requires StoreKept() && NextPart(key) == index + 1 && (key, index) !in store.files
      ensures forall i: nat :: index <= i && (key, i) in store.files ==> (key, i) in before
    {
      forall i: nat | index <= i && (key, i) in store.files
        ensures (key, i) in before
      {
        var f := (key, i);
        assert f !in before ==> f.1 < NextPart(f.0);
      }
    }

    method WritePart(key: K, index: nat, rows: seq<Row<V>>)
      requires Wired() && StoreKept() && forall k: K :: Kept(k)
      requires NextPart(key) == index + 1 && (key, index) !in store.files
      requires rows == Buffered(key) && 0 < |rows| <= cap && key in buffers
      requires forall k: K :: k != key ==> Small(k)
      modifies this`buffers, this`filesWritten, store
      ensures Valid() && buffers == old(buffers)[key := []]
      ensures store.files == old(store.files)[(key, index) := rows]
    {
      ghost var files := store.files;
      NoPartsFrom(key, index);
      PartAdded(files, before, key, index, index, rows);
      PartsSkip(files, before, key, index, index + 1);
      store.files := store.files[(key, index) := rows];
      filesWritten := filesWritten + 1;
      buffers := buffers[key := []];
      assert old(Kept(key)) && Kept(key) && Small(key);
      forall k: K | k != key
        ensures Kept(k) && Small(k)
      {
        assert old(Kept(k)) && old(Small(k)) && Buffered(k) == old(Buffered(k));
        OthersUntouched(files, before, key, index, rows, k, NextPart(k));
      }
    }

    /** Why a batch stopped once `taken` of its rows were in: it was over, the next row has no
        time, or the last one filled a buffer that cannot be written. */
    predicate Stopped(r: Outcome, rows: seq<Row<V>>, taken: nat)
      reads this`buffers
    {
      match r
      case Done => taken == |rows| && AllLanded(rows, |rows|)
      case MissingTime => taken < |rows| && !table.HasTime(table.Complete(rows[taken])) && AllLanded(rows, taken)
      case Incomplete => 0 < taken <= |rows| && Stuck(rows[taken - 1])
      case WriterClosed => taken == 0
    }

    /** One row of a batch, flushing its partition if that makes it full. It fails exactly
        when its buffer is then full of rows that cannot all be written; otherwise it lands,
        as the rows of its batch before it did. */
    method WriteRow(rawRow: Row<V>, ghost rows: seq<Row<V>>, ghost i: nat) returns (r: Outcome)
      requires Valid() && i < |rows| && rawRow == rows[i]
      modifies this`buffers, this`partIndex, this`filesWritten, this`accepted, store
      ensures Valid() && (r.Done? || r.Incomplete? || r.MissingTime?)
      ensures r.MissingTime? <==> !table.HasTime(table.Complete(rawRow))
      ensures r.MissingTime? ==> buffers == old(buffers)
      ensures r.MissingTime? ==> accepted == old(accepted)
      ensures !r.MissingTime? ==> accepted == old(accepted) + [table.Complete(rawRow)]
      ensures old(AllLanded(rows, i)) ==>
                if r.Done? then AllLanded(rows, i + 1) else Stopped(r, rows, if r.MissingTime? then i else i + 1)
      ensures old(BuffersWritable()) && table.Writable(table.Complete(rawRow)) ==> !r.Incomplete? && BuffersWritable()
      ensures Grown(old(store.files), store.files) && FullParts(old(store.files), store.files, cap)
    {
      var row := table.Complete(rawRow);
      if !table.HasTime(row) {
        return MissingTime;
      }
      r := Take(table.KeyOf(row), row);
      if old(BuffersWritable()) && table.Writable(row) {
        forall k: K
          ensures table.Encodable(Buffered(k))
        {
          assert old(table.Encodable(Buffered(k)));
        }
      }
      if r.Done? && old(AllLanded(rows, i)) {
        forall k | 0 <= k < i
          ensures Landed(rows[k])
        {
          assert old(Landed(rows[k]));
        }
      }
    }

    /** Buffers a completed row, and flushes its partition if that makes it full. */
    method Take(key: K, row: Row<V>) returns (r: Outcome)
      requires Valid() && table.HasTime(row) && key == table.KeyOf(row)
      modifies this`buffers, this`partIndex, this`filesWritten, this`accepted, store
      ensures Valid() && (r.Done? || r.Incomplete?)
      ensures r.Done? ==> |Buffered(key)| < cap
      ensures r.Incomplete? ==> |Buffered(key)| >= cap && !table.Encodable(Buffered(key))
      ensures old(table.Encodable(Buffered(key))) && table.Writable(row) ==> r.Done? && table.Encodable(Buffered(key))
      ensures forall k: K :: k != key ==> Buffered(k) == old(Buffered(k))
      ensures accepted == old(accepted) + [row] && Grown(old(store.files), store.files)
      ensures FullParts(old(store.files), store.files, cap)
    {
      Append(key, row);
      r := Done;
      if |buffers[key]| >= cap {
        r := FlushPartition(key);
      }
    }

    /** Buffers rows as they come, flushing a partition whenever it is full and not before. A
        batch of writable rows on writable buffers is taken whole, unless a row lacks its time. */
    method WriteRows(rows: seq<Row<V>>) returns (r: Outcome, ghost taken: nat)
      requires Valid()
      modifies this`buffers, this`partIndex, this`filesWritten, this`accepted, store
      ensures Valid() && taken <= |rows| && Stopped(r, rows, taken)
      ensures accepted == old(accepted) + table.CompleteAll(rows, taken)
      ensures r.WriterClosed? <==> closed
      ensures r.WriterClosed? ==> buffers == old(buffers)
      ensures !closed && old(BuffersWritable()) && table.Sound(rows) && table.Timed(rows) ==> r.Done?
      ensures old(BuffersWritable()) && table.Sound(rows) ==> !r.Incomplete? && BuffersWritable()
      ensures Grown(old(store.files), store.files) && FullParts(old(store.files), store.files, cap)
    {
      if closed {
        return WriterClosed, 0;
      }
      r, taken := TakeRows(rows);
    }

    method TakeRows(rows: seq<Row<V>>) returns (r: Outcome, ghost taken: nat)
      requires Valid()
      modifies this`buffers, this`partIndex, this`filesWritten, this`accepted, store
      ensures Valid() && taken <= |rows| && Stopped(r, rows, taken) && !r.WriterClosed?
      ensures accepted == old(accepted) + table.CompleteAll(rows, taken)
      ensures old(BuffersWritable()) && table.Sound(rows) ==> !r.Incomplete? && BuffersWritable()
      ensures Grown(old(store.files), store.files) && FullParts(old(store.files), store.files, cap)
    {
      taken := 0;
      for i := 0 to |rows|
        invariant Valid() && taken == i && AllLanded(rows, i)
        invariant accepted == old(accepted) + table.CompleteAll(rows, i)
        invariant old(BuffersWritable()) && table.Sound(rows) ==> BuffersWritable()
        invariant Grown(old(store.files), store.files) && FullParts(old(store.files), store.files, cap)
      {
        ghost var files := store.files;
        r := WriteRow(rows[i], rows, i);
        GrownTwice(old(store.files), files, store.files);
        FullTwice(old(store.files), files, store.files, cap);
        taken := if r.MissingTime? then i else i + 1;
        table.CompleteAllStep(old(accepted), rows, i);
        if !r.Done? {
          return;
        }
      }
      r := Done;
    }

    /** Buffers one row; only its own partition's buffer may now be full. */
    method Append(key: K, row: Row<V>)
      requires Valid() && table.HasTime(row) && key == table.KeyOf(row)
      modifies this`buffers, this`accepted
      ensures Wired() && StoreKept() && forall k: K :: Kept(k)
      ensures forall k: K :: k != key ==> Small(k)
      ensures key in buffers && buffers == old(buffers)[key := old(Buffered(key)) + [row]]
      ensures table.Encodable(Buffered(key)) ==> |Buffered(key)| <= cap
      ensures accepted == old(accepted) + [row]
    {
      ghost var was := Buffered(key);
      buffers := buffers[key := Buffered(key) + [row]];
      accepted := accepted + [row];
      assert old(Small(key));
      table.StillFits(was, row, cap);
      forall k: K | k != key
        ensures Small(k)
      {
        assert old(Small(k)) && Buffered(k) == old(Buffered(k));
      }
      forall k: K
        ensures Kept(k)
      {
        assert old(Kept(k));
        table.StillKept(Parts(store.files, before, k, NextPart(k)), old(Buffered(k)), old(accepted), row, k);
      }
    }

    /** Writes every buffer; it succeeds exactly when every buffered row can be written. */
    method Flush() returns (r: Outcome)
      requires Valid()
      modifies this`buffers, this`partIndex, this`filesWritten, store
      ensures Valid() && (r.Done? || r.Incomplete?)
      ensures r.Done? <==> forall k: K :: old(table.Encodable(Buffered(k)))
      ensures r.Done? ==> forall k: K :: Buffered(k) == []
      ensures Grown(old(store.files), store.files)
    {
      var todo := buffers.Keys;
      while todo != {}
        invariant Valid() && todo <= buffers.Keys
        invariant forall k: K :: k in todo || k !in buffers ==> Buffered(k) == old(Buffered(k))
        invariant forall k: K :: k !in todo ==> Buffered(k) == [] && old(table.Encodable(Buffered(k)))
        invariant Grown(old(store.files), store.files)
        decreases |todo|
      {
        var key :| key in todo;
        assert Small(key);
        ghost var files := store.files;
        var flushed := FlushPartition(key);
        GrownTwice(old(store.files), files, store.files);
        if flushed.Incomplete? {
          return Incomplete;
        }
        todo := todo - {key};
      }
      r := Done;
    }

    /** Flushes and closes; a failed flush leaves the writer open. */
    method Close() returns (r: Outcome)
      requires Valid()
      modifies this, store
      ensures Valid() && accepted == old(accepted)
      ensures old(closed) ==> r.Done? && closed && buffers == old(buffers) && store.files == old(store.files)
      ensures !old(closed) ==> (closed <==> r.Done?) && (r.Done? <==> forall k: K :: old(table.Encodable(Buffered(k))))
      ensures !old(closed) && r.Done? ==>
                forall k: K :: Buffered(k) == [] && Parts(store.files, before, k, NextPart(k)) == table.RowsOf(accepted, k)
    {
      if closed {
        return Done;
      }
      r := Flush();
      if r.Done? {
        closed := true;
        forall k: K
          ensures Parts(store.files, before, k, NextPart(k)) == table.RowsOf(accepted, k)
        {
          assert Kept(k) && Buffered(k) == [];
        }
      }
    }
  }
}
