/** Keyset paging: a table copied in chunks ordered by its unique key, while
    other sessions change the table between the chunk queries. */
module Snapshot {
  import opened Streams

  datatype Row<R> = Row(key: int, value: R)

  ghost predicate Increasing<R>(rows: seq<Row<R>>) {
    forall i, j :: 0 <= i < j < |rows| ==> rows[i].key < rows[j].key
  }

  ghost predicate HasKey<R>(rows: seq<Row<R>>, key: int) {
    exists i :: 0 <= i < |rows| && rows[i].key == key
  }

  // ---------------------------------------------------------------------------
  // Chunk queries

  /** A table as one query finds it, listed in key order; the key is unique. A
      failing query breaks off after some rows. */
  datatype Attempt<R> = Attempt(table: seq<Row<R>>, fails: bool, rowsBeforeFailure: nat)

  ghost predicate WellKeyed<R>(attempts: seq<Attempt<R>>) {
    forall q :: 0 <= q < |attempts| ==> Increasing(attempts[q].table)
  }

  datatype ChunkQuery = FirstChunk(limit: nat) | ChunkAfter(last: int, limit: nat)

  function BuildChunkQuery(last: Option<int>, size: nat): ChunkQuery {
    if last.None? then FirstChunk(size) else ChunkAfter(last.value, size)
  }

  /** How many rows of the table are at or before the key. */
  function Passed<R>(table: seq<Row<R>>, last: int): (n: nat)
    ensures n <= |table|
    ensures forall i :: 0 <= i < n ==> table[i].key <= last
    ensures n < |table| ==> last < table[n].key
  {
    if table == [] || last < table[0].key then 0 else 1 + Passed(table[1..], last)
  }

  /** The rows a query selects, before its limit. */
  function Selected<R>(query: ChunkQuery, table: seq<Row<R>>): seq<Row<R>> {
    if query.FirstChunk? then table else table[Passed(table, query.last)..]
  }

  function Take<T>(xs: seq<T>, n: nat): (r: seq<T>)
    ensures r <= xs && |r| == if n <= |xs| then n else |xs|
  {
    if n <= |xs| then xs[..n] else xs
  }

  /** What the database answers. */
  function Answer<R>(query: ChunkQuery, table: seq<Row<R>>): seq<Row<R>> {
    Take(Selected(query, table), query.limit)
  }

  function Chunk<R>(a: Attempt<R>, last: Option<int>, size: nat): seq<Row<R>> {
    Answer(BuildChunkQuery(last, size), a.table)
  }

  // ---------------------------------------------------------------------------
  // The copy

  /** What was emitted, whether the copy completed, and how many queries it took. */
  datatype Outcome<R> = Outcome(emitted: seq<Row<R>>, complete: bool, used: nat)

  function Last<R>(rows: seq<Row<R>>): Option<int> {
    if rows == [] then None else Some(rows[|rows| - 1].key)
  }

  /** The copy as a function of what each query finds; running out of attempts
      is a snapshot that was cut short. */
  function Run<R>(attempts: seq<Attempt<R>>, last: Option<int>, size: nat): (out: Outcome<R>)
    ensures out.used <= |attempts|
    decreases |attempts|
  {
    if attempts == [] then Outcome([], false, 0)
    else
      var rows := Chunk(attempts[0], last, size);
      if attempts[0].fails then Outcome(Take(rows, attempts[0].rowsBeforeFailure), false, 1)
      else if |rows| < size then Outcome(rows, true, 1)
      else Following(rows, 1, Run(attempts[1..], Last(rows), size))
  }

  function Following<R>(emitted: seq<Row<R>>, used: nat, rest: Outcome<R>): Outcome<R> {
    Outcome(emitted + rest.emitted, rest.complete, used + rest.used)
  }

  method FetchChunk<R>(a: Attempt<R>, query: ChunkQuery) returns (emitted: seq<Row<R>>, count: nat, last: Option<int>, ok: bool)
    ensures ok ==> !a.fails && emitted == Answer(query, a.table)
    ensures !ok ==> a.fails && emitted == Take(Answer(query, a.table), a.rowsBeforeFailure)
    ensures count == |emitted| && last == Last(emitted)
  {
    var rows := Answer(query, a.table);
    emitted, count, last := [], 0, None;
    for i := 0 to |rows|
      invariant emitted == rows[..i] && count == i && last == Last(emitted)
      invariant a.fails ==> i <= a.rowsBeforeFailure
    {
      if a.fails && i == a.rowsBeforeFailure {
        return emitted, count, last, false;
      }
      emitted := emitted + [rows[i]];
      count := count + 1;
      last := Some(rows[i].key);
    }
    ok := !a.fails;
  }

  method SnapshotByKey<R>(attempts: seq<Attempt<R>>, size: nat) returns (emitted: seq<Row<R>>, complete: bool, used: nat)
    ensures Outcome(emitted, complete, used) == Run(attempts, None, size)
  {
    hide Answer;
    var last := None;
    emitted, used := [], 0;
    assert attempts[0..] == attempts;
    while used < |attempts|
      invariant used <= |attempts|
      invariant Run(attempts, None, size) == Following(emitted, used, Run(attempts[used..], last, size))
    {
      var chunk, count, newLast, ok := FetchChunk(attempts[used], BuildChunkQuery(last, size));
      assert attempts[used..][1..] == attempts[used + 1..];
      ghost var before, rest := emitted, Run(attempts[used + 1..], newLast, size);
      emitted, used := emitted + chunk, used + 1;
      if !ok {
        complete := false;
        return;
      }
      last := newLast;
      if count < size {
        complete := true;
        return;
      }
      assert before + (chunk + rest.emitted) == emitted + rest.emitted;
    }
    complete := false;
  }

  // ---------------------------------------------------------------------------
  // What the copy holds

  /** Increasing, and beyond the last key already copied. */
  ghost predicate Beyond<R>(last: Option<int>, rows: seq<Row<R>>) {
    Increasing(rows) && (last.Some? ==> forall i :: 0 <= i < |rows| ==> last.value < rows[i].key)
  }

  lemma ChunkIsBeyond<R>(a: Attempt<R>, last: Option<int>, size: nat)
    requires Increasing(a.table)
    ensures Beyond(last, Chunk(a, last, size))
  {
    if last.Some? {
      var n := Passed(a.table, last.value);
      var rows := a.table[n..];
      forall i | 0 <= i < |rows| ensures last.value < rows[i].key {
        assert rows[i] == a.table[n + i];
      }
    }
  }

  lemma Joined<R>(last: Option<int>, rows: seq<Row<R>>, rest: seq<Row<R>>)
    requires rows != [] && Beyond(last, rows) && Beyond(Last(rows), rest)
    ensures Beyond(last, rows + rest)
  {
    var end := rows[|rows| - 1].key;
    assert forall i :: 0 <= i < |rows| ==> rows[i].key <= end;
    assert forall i :: 0 <= i < |rest| ==> end < rest[i].key;
  }

  /** Keys are emitted in strictly increasing order, so none twice, whatever
      happens to the table and wherever the copy breaks off. */
  lemma {:induction false} NoKeyTwice<R>(attempts: seq<Attempt<R>>, last: Option<int>, size: nat)
    requires WellKeyed(attempts)
    ensures Beyond(last, Run(attempts, last, size).emitted)
    decreases |attempts|
  {
    if attempts == [] {
    } else {
      var rows := Chunk(attempts[0], last, size);
      ChunkIsBeyond(attempts[0], last, size);
      hide Chunk;
      if !attempts[0].fails && |rows| >= size {
        var rest := Run(attempts[1..], Last(rows), size).emitted;
        NoKeyTwice(attempts[1..], Last(rows), size);
        if size == 0 {
          NothingWithoutRoom(attempts, last);
        } else {
          Joined(last, rows, rest);
        }
      }
    }
  }

  /** A chunk size of zero copies nothing and never completes. */
  lemma {:induction false} NothingWithoutRoom<R>(attempts: seq<Attempt<R>>, last: Option<int>)
    ensures Run(attempts, last, 0).emitted == [] && !Run(attempts, last, 0).complete
    decreases |attempts|
  {
    if attempts == [] {
    } else {
      NothingWithoutRoom(attempts[1..], None);
    }
  }

  /** A chunk is a stretch of the table, from the first row after the last key. */
  lemma ChunkIsAStretch<R>(a: Attempt<R>, last: Option<int>, size: nat) returns (n: nat)
    ensures var rows := Chunk(a, last, size);
      && n + |rows| <= |a.table| && rows == a.table[n..n + |rows|] && (|rows| == size || n + |rows| == |a.table|)
      && (last.None? ==> n == 0) && (last.Some? ==> n == Passed(a.table, last.value))
  {
    n := if last.None? then 0 else Passed(a.table, last.value);
    assert Selected(BuildChunkQuery(last, size), a.table) == a.table[n..];
  }

  /** What a chunk leaves out lies beyond it, and then the chunk is full. */
  lemma LeftOutIsBeyond<R>(a: Attempt<R>, last: Option<int>, size: nat, key: int)
    requires Increasing(a.table) && HasKey(a.table, key) && (last.Some? ==> last.value < key)
    requires !HasKey(Chunk(a, last, size), key) && size > 0
    ensures var rows := Chunk(a, last, size); |rows| == size && Last(rows).value < key
  {
    var n := ChunkIsAStretch(a, last, size);
    hide Chunk;
    var rows := Chunk(a, last, size);
    var i :| 0 <= i < |a.table| && a.table[i].key == key;
    assert i >= n;
    forall j | n <= j < n + |rows| ensures a.table[j].key != key {
      assert a.table[j] == rows[j - n];
    }
    assert i >= n + |rows| && |rows| == size;
    assert rows[size - 1] == a.table[n + size - 1];
  }

  lemma HasKeyConcat<R>(rows: seq<Row<R>>, rest: seq<Row<R>>, key: int)
    requires HasKey(rows, key) || HasKey(rest, key)
    ensures HasKey(rows + rest, key)
  {
    var all := rows + rest;
    if HasKey(rows, key) {
      var i :| 0 <= i < |rows| && rows[i].key == key;
      assert all[i].key == key;
    } else {
      var i :| 0 <= i < |rest| && rest[i].key == key;
      assert all[|rows| + i].key == key;
    }
  }

  /** A row in the table at every query is emitted; with NoKeyTwice, exactly
      once. */
  lemma {:induction false} PresentRowsAreEmitted<R>(attempts: seq<Attempt<R>>, last: Option<int>, size: nat, key: int)
    requires size > 0 && WellKeyed(attempts) && Run(attempts, last, size).complete
    requires last.Some? ==> last.value < key
    requires forall q :: 0 <= q < Run(attempts, last, size).used ==> HasKey(attempts[q].table, key)
    ensures HasKey(Run(attempts, last, size).emitted, key)
    decreases |attempts|
  {
    var rows := Chunk(attempts[0], last, size);
    if !HasKey(rows, key) {
      assert HasKey(attempts[0].table, key);
      LeftOutIsBeyond(attempts[0], last, size, key);
      hide Chunk;
      var rest := Run(attempts[1..], Last(rows), size);
      forall q | 0 <= q < rest.used ensures HasKey(attempts[1..][q].table, key) {
        assert attempts[1..][q] == attempts[q + 1];
      }
      PresentRowsAreEmitted(attempts[1..], Last(rows), size, key);
      HasKeyConcat(rows, rest.emitted, key);
    } else if |rows| >= size {
      HasKeyConcat(rows, Run(attempts[1..], Last(rows), size).emitted, key);
    }
  }

  lemma ChunkIsOfTable<R>(a: Attempt<R>, last: Option<int>, size: nat)
    ensures forall row <- Chunk(a, last, size) :: row in a.table
  {
    var n := ChunkIsAStretch(a, last, size);
  }

  /** A run that ends with its first query emits rows of that chunk only. */
  lemma FirstOnly<R>(attempts: seq<Attempt<R>>, last: Option<int>, size: nat, row: Row<R>)
    requires attempts != [] && row in Run(attempts, last, size).emitted && row !in Chunk(attempts[0], last, size)
    ensures !attempts[0].fails && |Chunk(attempts[0], last, size)| >= size
  {
    hide Chunk;
  }

  /** Nothing is made up: every emitted row was in the table when it was read. */
  lemma {:induction false} EmittedRowsWereThere<R>(attempts: seq<Attempt<R>>, last: Option<int>, size: nat, row: Row<R>) returns (q: nat)
    requires row in Run(attempts, last, size).emitted
    ensures q < Run(attempts, last, size).used && row in attempts[q].table
    decreases |attempts|
  {
    hide Chunk;
    var rows := Chunk(attempts[0], last, size);
    ChunkIsOfTable(attempts[0], last, size);
    if row in rows {
      q := 0;
    } else {
      assert !attempts[0].fails && |rows| >= size by { FirstOnly(attempts, last, size, row); }
      q := EmittedRowsWereThere(attempts[1..], Last(rows), size, row);
      q := q + 1;
    }
  }

  // ---------------------------------------------------------------------------
  // A table nobody changes

  function Unchanging<R>(table: seq<Row<R>>, n: nat): seq<Attempt<R>> {
    if n == 0 then [] else [Attempt(table, false, 0)] + Unchanging(table, n - 1)
  }

  lemma PassedIs<R>(table: seq<Row<R>>, n: nat)
    requires Increasing(table) && 0 < n <= |table|
    ensures Passed(table, table[n - 1].key) == n
  {
    assert forall i :: 0 <= i < n ==> table[i].key <= table[n - 1].key;
    assert n < |table| ==> table[n - 1].key < table[n].key;
  }

  lemma ChunkFrom<R>(table: seq<Row<R>>, from: nat, size: nat)
    requires Increasing(table) && size > 0 && from <= |table|
    ensures var rows := Chunk(Attempt(table, false, 0), Last(table[..from]), size);
      && rows == Take(table[from..], size)
      && (from + size <= |table| ==> Last(rows) == Last(table[..from + size]))
  {
    hide Increasing, Passed;
    var last := Last(table[..from]);
    if from > 0 {
      PassedIs(table, from);
      assert last == Some(table[from - 1].key);
    } else {
      assert table[0..] == table;
    }
    assert Selected(BuildChunkQuery(last, size), table) == table[from..];
    var rows := Take(table[from..], size);
    assert from + size <= |table| ==> rows[size - 1] == table[from + size - 1] == table[..from + size][from + size - 1];
  }

  /** The copy of the rest of the table, from row `from` on. */
  lemma {:induction false} CopyOfRest<R>(table: seq<Row<R>>, from: nat, size: nat, n: nat)
    requires Increasing(table) && size > 0 && from <= |table| < from + n * size
    ensures var out := Run(Unchanging(table, n), Last(table[..from]), size);
      out.complete && out.emitted == table[from..]
    decreases n
  {
    hide Chunk, Increasing;
    ChunkFrom(table, from, size);
    if from + size > |table| {
    } else {
      FewerLeft(n, size);
      CopyOfRest(table, from + size, size, n - 1);
      assert table[from..][..size] + table[from + size..] == table[from..];
      assert Unchanging(table, n)[1..] == Unchanging(table, n - 1);
    }
  }

  lemma FewerLeft(n: nat, size: nat)
    requires size > 0 && n * size > 0
    ensures n > 0 && n * size == (n - 1) * size + size
  {
  }

  /** On an unchanging table the copy completes as soon as its chunks hold more
      than the table, and equals one full ordered scan. */
  lemma UnchangingIsFullScan<R>(table: seq<Row<R>>, size: nat, n: nat)
    requires Increasing(table) && size > 0 && |table| < n * size
    ensures var out := Run(Unchanging(table, n), None, size);
      out.complete && out.emitted == table
  {
    CopyOfRest(table, 0, size, n);
  }

  /** An unchanging table is copied in full, by some number of queries, if and
      only if the chunk size is positive. */
  lemma CompletesIff<R>(table: seq<Row<R>>, size: nat)
    requires Increasing(table)
    ensures size > 0 <==> exists n: nat :: CopiedBy(table, size, n)
  {
    if size > 0 {
      EnoughRoom(|table|, size);
      UnchangingIsFullScan(table, size, |table| + 1);
      assert CopiedBy(table, size, |table| + 1);
    } else {
      forall n: nat ensures !CopiedBy(table, size, n) {
        NothingWithoutRoom(Unchanging(table, n), None);
      }
    }
  }

  ghost predicate CopiedBy<R>(table: seq<Row<R>>, size: nat, n: nat) {
    var out := Run(Unchanging(table, n), None, size);
    out.complete && out.emitted == table
  }

  lemma EnoughRoom(rows: nat, size: nat)
    requires size > 0
    ensures rows < (rows + 1) * size
  {
    assert (rows + 1) * size == rows * size + size;
    assert rows * size >= rows by {
      assert rows * (size - 1) >= 0;
    }
  }
}
