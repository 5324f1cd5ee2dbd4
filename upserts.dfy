/**
 * What one multi-row `INSERT ... ON CONFLICT` statement does to a table, and what a run of
 * such statements does when each is a separate round trip that may fail.
 *
 * Rows are applied in VALUES order. A row whose key is absent is inserted. A row whose key is
 * present either updates the stored row (DO UPDATE, when its WHERE holds) or leaves it
 * (DO NOTHING). Postgres refuses a DO UPDATE statement whose later row meets a row that the
 * same statement already inserted or updated; that aborts the whole statement, so the table
 * is left as it was.
 */
module Upserts {
  import opened Wrappers
  import opened Clock
  import opened Records
  import opened Chunks
  import opened Store

  /** DO UPDATE guarded by the newest-wins WHERE, DO UPDATE with no WHERE, or DO NOTHING. */
  datatype Mode = NewestWins | Overwrite | Ignore

  /** One table's conflict behaviour: its key, its timestamps, and how rows are built and rewritten. */
  datatype Policy<K, !I, !R> = Policy(
    mode: Mode,
    key: I -> K,
    incomingStamp: I -> Option<Time>,
    storedStamp: R -> Option<Time>,
    insert: I -> R,
    update: (R, I) -> R)

  /** Whether an incoming row rewrites the stored row it conflicts with. */
  predicate Wins<K, I, R>(p: Policy<K, I, R>, stored: R, incoming: I) {
    match p.mode
    case NewestWins => Accepts(p.storedStamp(stored), p.incomingStamp(incoming))
    case Overwrite => true
    case Ignore => false
  }

  const SecondTouch: string := "ON CONFLICT DO UPDATE command cannot affect row a second time"

  /**
   * One statement over `rows`; `touched` holds the keys the statement has already inserted or
   * updated.
   */
  function Execute<K(==), I, R>(p: Policy<K, I, R>, table: map<K, R>, rows: seq<I>, touched: set<K>)
    : Result<map<K, R>>
    decreases |rows|
  {
    if rows == [] then Ok(table)
    else
      var k := p.key(rows[0]);
      if k !in table then Execute(p, table[k := p.insert(rows[0])], rows[1..], touched + {k})
      else if k in touched && !p.mode.Ignore? then Err(SecondTouch)
      else if Wins(p, table[k], rows[0]) then
        Execute(p, table[k := p.update(table[k], rows[0])], rows[1..], touched + {k})
      else Execute(p, table, rows[1..], touched)
  }

  /** The keys a batch addresses. */
  function Keys<K(==), I, R>(p: Policy<K, I, R>, rows: seq<I>): set<K> {
    set i | 0 <= i < |rows| :: p.key(rows[i])
  }

  predicate DistinctKeys<K(==), I, R>(p: Policy<K, I, R>, rows: seq<I>) {
    forall i, j :: 0 <= i < j < |rows| ==> p.key(rows[i]) != p.key(rows[j])
  }

  /** What a single row does to the stored table when no other row of the statement shares its key. */
  function Outcome1<K(==), I, R>(p: Policy<K, I, R>, table: map<K, R>, row: I): R {
    var k := p.key(row);
    if k !in table then p.insert(row)
    else if Wins(p, table[k], row) then p.update(table[k], row)
    else table[k]
  }

  /**
   * A statement whose rows have distinct keys succeeds; each addressed key then holds what its
   * row makes of the stored row, and every other key keeps its row.
   */
  lemma {:induction false} ExecuteDistinct<K, I, R>(p: Policy<K, I, R>, table: map<K, R>, rows: seq<I>, touched: set<K>)
    requires DistinctKeys(p, rows) && Keys(p, rows) !! touched
    ensures Execute(p, table, rows, touched).Ok?
    ensures var t := Execute(p, table, rows, touched).value;
      t.Keys == table.Keys + Keys(p, rows) &&
      (forall i :: 0 <= i < |rows| ==> t[p.key(rows[i])] == Outcome1(p, table, rows[i])) &&
      (forall k :: k in table && k !in Keys(p, rows) ==> t[k] == table[k])
    decreases |rows|
  {
    if rows != [] {
      var k := p.key(rows[0]);
      var rest := rows[1..];
      var t1 := if k !in table || Wins(p, table[k], rows[0]) then table[k := Outcome1(p, table, rows[0])] else table;
      var tch := if k !in table || Wins(p, table[k], rows[0]) then touched + {k} else touched;
      assert Keys(p, rows) == {k} + Keys(p, rest) by {
        forall x | x in Keys(p, rows) ensures x in {k} + Keys(p, rest) {
          var i :| 0 <= i < |rows| && p.key(rows[i]) == x;
          if i > 0 { assert p.key(rest[i - 1]) == x; }
        }
        forall x | x in Keys(p, rest) ensures x in Keys(p, rows) {
          var i :| 0 <= i < |rest| && p.key(rest[i]) == x;
          assert p.key(rows[i + 1]) == x;
        }
      }
      assert k !in Keys(p, rest) by {
        forall i | 0 <= i < |rest| ensures p.key(rest[i]) != k {
          assert rest[i] == rows[i + 1];
        }
      }
      assert DistinctKeys(p, rest) by {
        forall i, j | 0 <= i < j < |rest| ensures p.key(rest[i]) != p.key(rest[j]) {
          assert rest[i] == rows[i + 1] && rest[j] == rows[j + 1];
        }
      }
      assert Execute(p, table, rows, touched) == Execute(p, t1, rest, tch);
      ExecuteDistinct(p, t1, rest, tch);
      forall i | 0 <= i < |rest| ensures Outcome1(p, t1, rest[i]) == Outcome1(p, table, rest[i]) {
        assert p.key(rest[i]) in Keys(p, rest);
      }
      forall i | 0 <= i < |rows|
        ensures Execute(p, table, rows, touched).value[p.key(rows[i])] == Outcome1(p, table, rows[i])
      {
        if i > 0 {
          assert rows[i] == rest[i - 1];
        }
      }
    }
  }

  /** Two DO UPDATE rows for a key the table lacks: the second meets the first's insert and the statement fails. */
  lemma {:induction false} ExecuteRejectsRepeatedNewKey<K, I, R>(p: Policy<K, I, R>, table: map<K, R>, rows: seq<I>, touched: set<K>, i: nat, j: nat)
    requires !p.mode.Ignore?
    requires i < j < |rows| && p.key(rows[i]) == p.key(rows[j])
    requires (p.key(rows[i]) !in table && p.key(rows[i]) !in touched) || p.key(rows[i]) in touched
    ensures Execute(p, table, rows, touched).Err?
    decreases |rows|
  {
    var k := p.key(rows[0]);
    var x := p.key(rows[i]);
    var rest := rows[1..];
    if i == 0 && x !in touched {
      // the first row inserts x, the j-th then meets it
      ExecuteSeesTouched(p, table[k := p.insert(rows[0])], rest, touched + {k}, j - 1);
    } else if i == 0 {
      assert k in touched;
      if k !in table {
        ExecuteSeesTouched(p, table[k := p.insert(rows[0])], rest, touched + {k}, j - 1);
      }
    } else {
      assert rest[i - 1] == rows[i] && rest[j - 1] == rows[j];
      if k !in table {
        ExecuteRejectsRepeatedNewKey(p, table[k := p.insert(rows[0])], rest, touched + {k}, i - 1, j - 1);
      } else if k in touched {
      } else if Wins(p, table[k], rows[0]) {
        ExecuteRejectsRepeatedNewKey(p, table[k := p.update(table[k], rows[0])], rest, touched + {k}, i - 1, j - 1);
      } else {
        ExecuteRejectsRepeatedNewKey(p, table, rest, touched, i - 1, j - 1);
      }
    }
  }

  /** A DO UPDATE row whose key the statement already touched fails the statement. */
  lemma {:induction false} ExecuteSeesTouched<K, I, R>(p: Policy<K, I, R>, table: map<K, R>, rows: seq<I>, touched: set<K>, j: nat)
    requires !p.mode.Ignore? && j < |rows| && p.key(rows[j]) in touched && p.key(rows[j]) in table
    ensures Execute(p, table, rows, touched).Err?
    decreases |rows|
  {
    var k := p.key(rows[0]);
    var rest := rows[1..];
    if j > 0 {
      assert rest[j - 1] == rows[j];
      if k !in table {
        ExecuteSeesTouched(p, table[k := p.insert(rows[0])], rest, touched + {k}, j - 1);
      } else if k in touched {
      } else if Wins(p, table[k], rows[0]) {
        ExecuteSeesTouched(p, table[k := p.update(table[k], rows[0])], rest, touched + {k}, j - 1);
      } else {
        ExecuteSeesTouched(p, table, rest, touched, j - 1);
      }
    }
  }

  /** Keys that no row addresses keep their stored rows, and no row disappears. */
  lemma {:induction false} ExecuteFrame<K, I, R>(p: Policy<K, I, R>, table: map<K, R>, rows: seq<I>, touched: set<K>)
    requires Execute(p, table, rows, touched).Ok?
    ensures var t := Execute(p, table, rows, touched).value;
      t.Keys == table.Keys + Keys(p, rows) &&
      forall k :: k in table && k !in Keys(p, rows) ==> t[k] == table[k]
    decreases |rows|
  {
    if rows != [] {
      var k := p.key(rows[0]);
      var rest := rows[1..];
      assert Keys(p, rows) == {k} + Keys(p, rest) by {
        forall x | x in Keys(p, rows) ensures x in {k} + Keys(p, rest) {
          var i :| 0 <= i < |rows| && p.key(rows[i]) == x;
          if i > 0 { assert p.key(rest[i - 1]) == x; }
        }
        forall x | x in Keys(p, rest) ensures x in Keys(p, rows) {
          var i :| 0 <= i < |rest| && p.key(rest[i]) == x;
          assert p.key(rows[i + 1]) == x;
        }
      }
      if k !in table {
        ExecuteFrame(p, table[k := p.insert(rows[0])], rest, touched + {k});
      } else if Wins(p, table[k], rows[0]) {
        ExecuteFrame(p, table[k := p.update(table[k], rows[0])], rest, touched + {k});
      } else {
        ExecuteFrame(p, table, rest, touched);
      }
    }
  }

  /** DO NOTHING never fails on a repeated key, never alters a stored row, and keeps the first of repeated new rows. */
  lemma {:induction false} ExecuteIgnore<K, I, R>(p: Policy<K, I, R>, table: map<K, R>, rows: seq<I>, touched: set<K>)
    requires p.mode.Ignore?
    ensures Execute(p, table, rows, touched).Ok?
    ensures var t := Execute(p, table, rows, touched).value;
      t.Keys == table.Keys + Keys(p, rows) &&
      (forall k :: k in table ==> t[k] == table[k]) &&
      (forall i :: (0 <= i < |rows| && p.key(rows[i]) !in table &&
         (forall h :: 0 <= h < i ==> p.key(rows[h]) != p.key(rows[i]))) ==> t[p.key(rows[i])] == p.insert(rows[i]))
    decreases |rows|
  {
    if rows != [] {
      var k := p.key(rows[0]);
      var rest := rows[1..];
      var t1 := if k !in table then table[k := p.insert(rows[0])] else table;
      var tch := if k !in table then touched + {k} else touched;
      assert Execute(p, table, rows, touched) == Execute(p, t1, rest, tch);
      ExecuteIgnore(p, t1, rest, tch);
      assert Keys(p, rows) == {k} + Keys(p, rest) by {
        forall x | x in Keys(p, rows) ensures x in {k} + Keys(p, rest) {
          var i :| 0 <= i < |rows| && p.key(rows[i]) == x;
          if i > 0 { assert p.key(rest[i - 1]) == x; }
        }
        forall x | x in Keys(p, rest) ensures x in Keys(p, rows) {
          var i :| 0 <= i < |rest| && p.key(rest[i]) == x;
          assert p.key(rows[i + 1]) == x;
        }
      }
      var t := Execute(p, table, rows, touched).value;
      forall i | 0 <= i < |rows| && p.key(rows[i]) !in table &&
         (forall h :: 0 <= h < i ==> p.key(rows[h]) != p.key(rows[i]))
        ensures t[p.key(rows[i])] == p.insert(rows[i])
      {
        if i > 0 {
          assert rest[i - 1] == rows[i];
          assert p.key(rows[i]) != k;
          forall h | 0 <= h < i - 1 ensures p.key(rest[h]) != p.key(rest[i - 1]) {
            assert rest[h] == rows[h + 1];
          }
        }
      }
    }
  }

  // ---- runs of statements ----

  /** Where a run of statements leaves the table, how it ended, and the round-trip counter after it. */
  datatype Run<T> = Run(table: T, outcome: Outcome, round: nat)

  /**
   * One statement as round trip `round`: it fails when that round trip is in `faulty` or the
   * statement errs, and a failed statement changes nothing.
   */
  function Send<K(==), I, R>(p: Policy<K, I, R>, table: map<K, R>, chunk: seq<I>, round: nat, faulty: set<nat>)
    : (r: Run<map<K, R>>)
    ensures r.round == round + 1
    ensures r.outcome.Fail? ==> r.table == table
  {
    if round in faulty then Run(table, Fail(ConnectionFault), round + 1)
    else match Execute(p, table, chunk, {})
      case Err(m) => Run(table, Fail(m), round + 1)
      case Ok(t) => Run(t, Pass, round + 1)
  }

  /** The chunks sent one statement each, in order; no chunk is sent after a failed one. */
  function SendAll<K(==), I, R>(p: Policy<K, I, R>, table: map<K, R>, chunks: seq<seq<I>>, round: nat, faulty: set<nat>)
    : Run<map<K, R>>
    decreases |chunks|
  {
    if chunks == [] then Run(table, Pass, round)
    else
      var r := Send(p, table, chunks[0], round, faulty);
      if r.outcome.Fail? then r else SendAll(p, r.table, chunks[1..], r.round, faulty)
  }

  /** Sending a first chunk and then the rest: the rest is sent only when the first passed. */
  lemma SendAllHead<K, I, R>(p: Policy<K, I, R>, table: map<K, R>, chunk: seq<I>, rest: seq<seq<I>>, round: nat, faulty: set<nat>)
    ensures SendAll(p, table, [chunk] + rest, round, faulty) ==
      var r := Send(p, table, chunk, round, faulty);
      if r.outcome.Fail? then r else SendAll(p, r.table, rest, r.round, faulty)
  {
    assert ([chunk] + rest)[0] == chunk && ([chunk] + rest)[1..] == rest;
  }

  /** Sending a + b is sending a, then, if that passed, b. */
  lemma {:induction false} SendAllAppend<K, I, R>(p: Policy<K, I, R>, table: map<K, R>, a: seq<seq<I>>, b: seq<seq<I>>, round: nat, faulty: set<nat>)
    ensures var first := SendAll(p, table, a, round, faulty);
      SendAll(p, table, a + b, round, faulty) ==
        if first.outcome.Fail? then first else SendAll(p, first.table, b, first.round, faulty)
    decreases |a|
  {
    if a == [] {
      assert a + b == b;
    } else {
      assert (a + b)[0] == a[0] && (a + b)[1..] == a[1..] + b;
      var r := Send(p, table, a[0], round, faulty);
      if r.outcome.Pass? {
        SendAllAppend(p, r.table, a[1..], b, r.round, faulty);
      }
    }
  }

  /**
   * A run stops at its first failure: it used one round trip for each chunk it sent, a passed
   * run met no faulty round trip, and a failed one ended on a faulty round trip or a refused
   * statement.
   */
  lemma {:induction false} SendAllRounds<K, I, R>(p: Policy<K, I, R>, table: map<K, R>, chunks: seq<seq<I>>, round: nat, faulty: set<nat>)
    ensures var r := SendAll(p, table, chunks, round, faulty);
      round <= r.round <= round + |chunks| &&
      (r.outcome.Pass? ==> r.round == round + |chunks| && forall q :: round <= q < r.round ==> q !in faulty) &&
      (r.round < round + |chunks| ==> r.outcome.Fail?)
    decreases |chunks|
  {
    if chunks != [] {
      var r := Send(p, table, chunks[0], round, faulty);
      if r.outcome.Pass? {
        SendAllRounds(p, r.table, chunks[1..], r.round, faulty);
      }
    }
  }

  /** Whether a statement's touched set matters: not when it holds none of the rows' keys. */
  lemma {:induction false} ExecuteTouchedIrrelevant<K, I, R>(p: Policy<K, I, R>, table: map<K, R>, rows: seq<I>, t1: set<K>, t2: set<K>)
    requires Keys(p, rows) !! t1 && Keys(p, rows) !! t2 && DistinctKeys(p, rows)
    ensures Execute(p, table, rows, t1) == Execute(p, table, rows, t2)
    decreases |rows|
  {
    if rows != [] {
      var k := p.key(rows[0]);
      var rest := rows[1..];
      assert k in Keys(p, rows);
      assert Keys(p, rest) <= Keys(p, rows) by {
        forall x | x in Keys(p, rest) ensures x in Keys(p, rows) {
          var i :| 0 <= i < |rest| && p.key(rest[i]) == x;
          assert p.key(rows[i + 1]) == x;
        }
      }
      assert k !in Keys(p, rest) by {
        forall i | 0 <= i < |rest| ensures p.key(rest[i]) != k {
          assert rest[i] == rows[i + 1];
        }
      }
      assert DistinctKeys(p, rest) by {
        forall i, j | 0 <= i < j < |rest| ensures p.key(rest[i]) != p.key(rest[j]) {
          assert rest[i] == rows[i + 1] && rest[j] == rows[j + 1];
        }
      }
      if k !in table {
        ExecuteTouchedIrrelevant(p, table[k := p.insert(rows[0])], rest, t1 + {k}, t2 + {k});
      } else if Wins(p, table[k], rows[0]) {
        ExecuteTouchedIrrelevant(p, table[k := p.update(table[k], rows[0])], rest, t1 + {k}, t2 + {k});
      } else {
        ExecuteTouchedIrrelevant(p, table, rest, t1, t2);
      }
    }
  }

  /** DO NOTHING passes over repeated keys, so its touched set plays no part. */
  lemma {:induction false} IgnoreTouchedIrrelevant<K, I, R>(p: Policy<K, I, R>, table: map<K, R>, rows: seq<I>, t1: set<K>, t2: set<K>)
    requires p.mode.Ignore?
    ensures Execute(p, table, rows, t1) == Execute(p, table, rows, t2)
    decreases |rows|
  {
    if rows != [] {
      var k := p.key(rows[0]);
      if k !in table {
        IgnoreTouchedIrrelevant(p, table[k := p.insert(rows[0])], rows[1..], t1 + {k}, t2 + {k});
      } else {
        IgnoreTouchedIrrelevant(p, table, rows[1..], t1, t2);
      }
    }
  }

  /** A DO NOTHING statement over a + b does what one over a and then one over b would do. */
  lemma {:induction false} IgnoreAppend<K, I, R>(p: Policy<K, I, R>, table: map<K, R>, a: seq<I>, b: seq<I>, touched: set<K>)
    requires p.mode.Ignore?
    ensures Execute(p, table, a, touched).Ok?
    ensures Execute(p, table, a + b, touched) == Execute(p, Execute(p, table, a, touched).value, b, {})
    decreases |a|
  {
    ExecuteIgnore(p, table, a, touched);
    if a == [] {
      assert a + b == b;
      IgnoreTouchedIrrelevant(p, table, b, touched, {});
    } else {
      var k := p.key(a[0]);
      assert (a + b)[0] == a[0] && (a + b)[1..] == a[1..] + b;
      if k !in table {
        IgnoreAppend(p, table[k := p.insert(a[0])], a[1..], b, touched + {k});
      } else {
        IgnoreAppend(p, table, a[1..], b, touched);
      }
    }
  }

  /**
   * A run of DO NOTHING statements fails only on a faulty round trip; it passes iff none of its
   * round trips is faulty, and the table it leaves is that of one statement over every row of
   * the chunks it got through: all of them on success, those before the failed one otherwise.
   */
  lemma {:induction false} IgnoreRun<K, I, R>(p: Policy<K, I, R>, table: map<K, R>, chunks: seq<seq<I>>, round: nat, faulty: set<nat>)
    requires p.mode.Ignore?
    ensures var r := SendAll(p, table, chunks, round, faulty);
      var sent := r.round - round;
      round <= r.round <= round + |chunks| &&
      (r.outcome.Pass? <==> forall q :: round <= q < round + |chunks| ==> q !in faulty) &&
      (r.outcome.Pass? ==> sent == |chunks| && Execute(p, table, Flatten(chunks), {}) == Ok(r.table)) &&
      (r.outcome.Fail? ==>
         sent >= 1 && r.round - 1 in faulty && r.outcome == Fail(ConnectionFault) &&
         Execute(p, table, Flatten(chunks[..sent - 1]), {}) == Ok(r.table))
    decreases |chunks|
  {
    if chunks == [] {
    } else {
      var c := chunks[0];
      var rest := chunks[1..];
      assert Flatten(chunks) == c + Flatten(rest);
      ExecuteIgnore(p, table, c, {});
      assert Flatten(chunks[..0]) == [];
      if round !in faulty {
        var t := Execute(p, table, c, {}).value;
        IgnoreRun(p, t, rest, round + 1, faulty);
        var r := SendAll(p, t, rest, round + 1, faulty);
        assert r == SendAll(p, table, chunks, round, faulty);
        IgnoreAppend(p, table, c, Flatten(rest), {});
        if r.outcome.Fail? {
          var j := r.round - (round + 1) - 1;
          assert chunks[..j + 1] == [c] + rest[..j];
          assert Flatten(chunks[..j + 1]) == c + Flatten(rest[..j]);
          IgnoreAppend(p, table, c, Flatten(rest[..j]), {});
        }
      }
    }
  }

  /** IgnoreRun for a batch cut into chunks of n rows. */
  lemma IgnoreBatch<K, I, R>(p: Policy<K, I, R>, table: map<K, R>, rows: seq<I>, n: nat, round: nat, faulty: set<nat>)
    requires p.mode.Ignore? && n > 0
    ensures var chunks := ChunksOf(rows, n);
      var r := SendAll(p, table, chunks, round, faulty);
      (r.outcome.Pass? <==> forall q :: round <= q < round + |chunks| ==> q !in faulty) &&
      (r.outcome.Fail? ==> r.outcome == Fail(ConnectionFault)) &&
      (r.outcome.Pass? ==> Execute(p, table, rows, {}) == Ok(r.table))
  {
    IgnoreRun(p, table, ChunksOf(rows, n), round, faulty);
  }

  /** Whatever the outcome, the table is that of one statement over a prefix of the batch. */
  lemma IgnoreBatchPrefix<K, I, R>(p: Policy<K, I, R>, table: map<K, R>, rows: seq<I>, n: nat, round: nat, faulty: set<nat>)
    requires p.mode.Ignore? && n > 0
    ensures var r := SendAll(p, table, ChunksOf(rows, n), round, faulty);
      exists m :: 0 <= m <= |rows| && Execute(p, table, rows[..m], {}) == Ok(r.table)
  {
    var chunks := ChunksOf(rows, n);
    var r := SendAll(p, table, chunks, round, faulty);
    IgnoreRun(p, table, chunks, round, faulty);
    var sent := r.round - round;
    var j := if r.outcome.Pass? then sent else sent - 1;
    FlattenPrefix(chunks, j);
    var m := |Flatten(chunks[..j])|;
    assert chunks[..j] == chunks || r.outcome.Fail?;
    assert rows[..m] == Flatten(chunks[..j]);
  }

  // ---- the chunked flush loop ----

  /**
   * The statement size of the repositories' flush loop: it flushes as soon as batchSize rows
   * are pending, so a batchSize below 1 sends one row per statement.
   */
  function FlushSize(batchSize: int): (n: nat)
    ensures n > 0
    ensures batchSize > 0 ==> n == batchSize
    ensures batchSize <= 0 ==> n == 1
  {
    if batchSize > 0 then batchSize else 1
  }

  /**
   * The repositories' row loop from the current point on: each row joins the pending rows,
   * which go out as one statement once at least batchSize are pending; what is still pending
   * at the end goes out last, and nothing goes out after a failure.
   */
  function FlushLoop<K(==), I, R>(p: Policy<K, I, R>, table: map<K, R>, rest: seq<I>, pending: seq<I>, batchSize: int, round: nat, faulty: set<nat>)
    : Run<map<K, R>>
    decreases |rest|
  {
    if rest == [] then
      (if pending == [] then Run(table, Pass, round) else Send(p, table, pending, round, faulty))
    else
      var pend := pending + [rest[0]];
      if |pend| >= batchSize then
        var r := Send(p, table, pend, round, faulty);
        if r.outcome.Fail? then r else FlushLoop(p, r.table, rest[1..], [], batchSize, r.round, faulty)
      else FlushLoop(p, table, rest[1..], pend, batchSize, round, faulty)
  }

  /**
   * The loop sends exactly the statements ChunksOf cuts: every row in exactly one statement,
   * in input order, FlushSize(batchSize) rows to a statement and the remainder last.
   */
  lemma {:induction false} FlushLoopChunks<K, I, R>(p: Policy<K, I, R>, table: map<K, R>, rest: seq<I>, pending: seq<I>, batchSize: int, round: nat, faulty: set<nat>)
    requires |pending| < FlushSize(batchSize)
    ensures FlushLoop(p, table, rest, pending, batchSize, round, faulty) ==
      SendAll(p, table, ChunksOf(pending + rest, FlushSize(batchSize)), round, faulty)
    decreases |rest|
  {
    var n := FlushSize(batchSize);
    if rest == [] {
      assert pending + rest == pending;
      if pending != [] {
        ChunksOfFull(pending, n);
        assert [pending][1..] == [];
      }
    } else {
      var pend := pending + [rest[0]];
      var s := pending + rest;
      assert s == pend + rest[1..];
      if |pend| >= batchSize {
        assert ChunksOf(s, n) == [pend] + ChunksOf(rest[1..], n) by {
          ChunksOfCons(pend, rest[1..], n);
        }
        assert ([pend] + ChunksOf(rest[1..], n))[1..] == ChunksOf(rest[1..], n);
        var r := Send(p, table, pend, round, faulty);
        if r.outcome.Pass? {
          FlushLoopChunks(p, r.table, rest[1..], [], batchSize, r.round, faulty);
          assert [] + rest[1..] == rest[1..];
        }
      } else {
        FlushLoopChunks(p, table, rest[1..], pend, batchSize, round, faulty);
      }
    }
  }

  /** An empty batch sends nothing and changes nothing. */
  lemma FlushLoopEmpty<K, I, R>(p: Policy<K, I, R>, table: map<K, R>, batchSize: int, round: nat, faulty: set<nat>)
    ensures SendAll(p, table, ChunksOf([], FlushSize(batchSize)), round, faulty) == Run(table, Pass, round)
  {
  }

  // ---- batch-size invariance ----

  lemma KeysAppend<K, I, R>(p: Policy<K, I, R>, a: seq<I>, b: seq<I>)
    ensures Keys(p, a + b) == Keys(p, a) + Keys(p, b)
  {
    forall x | x in Keys(p, a + b) ensures x in Keys(p, a) + Keys(p, b) {
      var i :| 0 <= i < |a + b| && p.key((a + b)[i]) == x;
      if i >= |a| { assert (a + b)[i] == b[i - |a|]; }
    }
    forall x | x in Keys(p, a) + Keys(p, b) ensures x in Keys(p, a + b) {
      if x in Keys(p, a) {
        var i :| 0 <= i < |a| && p.key(a[i]) == x;
        assert (a + b)[i] == a[i];
      } else {
        var i :| 0 <= i < |b| && p.key(b[i]) == x;
        assert (a + b)[|a| + i] == b[i];
      }
    }
  }

  /** The halves of a batch with distinct keys have distinct keys, and no key in common. */
  lemma DistinctSplit<K, I, R>(p: Policy<K, I, R>, a: seq<I>, b: seq<I>)
    requires DistinctKeys(p, a + b)
    ensures DistinctKeys(p, a) && DistinctKeys(p, b) && Keys(p, a) !! Keys(p, b)
  {
    assert DistinctKeys(p, a) by {
      forall i, j | 0 <= i < j < |a| ensures p.key(a[i]) != p.key(a[j]) {
        assert (a + b)[i] == a[i] && (a + b)[j] == a[j];
      }
    }
    assert DistinctKeys(p, b) by {
      forall i, j | 0 <= i < j < |b| ensures p.key(b[i]) != p.key(b[j]) {
        assert (a + b)[|a| + i] == b[i] && (a + b)[|a| + j] == b[j];
      }
    }
    forall i, j | 0 <= i < |a| && 0 <= j < |b| ensures p.key(a[i]) != p.key(b[j]) {
      assert (a + b)[i] == a[i] && (a + b)[|a| + j] == b[j];
    }
  }

  /**
   * With distinct keys, one statement over a + b leaves the table that a statement over a
   * followed by a statement over b leaves.
   */
  lemma ExecuteSplit<K, I, R>(p: Policy<K, I, R>, table: map<K, R>, a: seq<I>, b: seq<I>)
    requires DistinctKeys(p, a + b)
    ensures DistinctKeys(p, a) && DistinctKeys(p, b) && Keys(p, a) !! Keys(p, b)
    ensures Execute(p, table, a + b, {}).Ok? && Execute(p, table, a, {}).Ok?
    ensures Execute(p, table, a + b, {}) == Execute(p, Execute(p, table, a, {}).value, b, {})
  {
    DistinctSplit(p, a, b);
    KeysAppend(p, a, b);
    ExecuteSplitKeys(p, table, a, b);
    var l := Execute(p, table, a + b, {}).value;
    var r := Execute(p, Execute(p, table, a, {}).value, b, {}).value;
    forall x | x in l ensures l[x] == r[x] {
      ExecuteSplitAt(p, table, a, b, x);
    }
    assert l == r;
  }

  /** Both ways of running a + b succeed, and touch the same keys. */
  lemma ExecuteSplitKeys<K, I, R>(p: Policy<K, I, R>, table: map<K, R>, a: seq<I>, b: seq<I>)
    requires DistinctKeys(p, a + b) && DistinctKeys(p, a) && DistinctKeys(p, b) && Keys(p, a) !! Keys(p, b)
    requires Keys(p, a + b) == Keys(p, a) + Keys(p, b)
    ensures Execute(p, table, a, {}).Ok? && Execute(p, Execute(p, table, a, {}).value, b, {}).Ok?
    ensures Execute(p, table, a + b, {}).Ok?
    ensures Execute(p, table, a + b, {}).value.Keys == Execute(p, Execute(p, table, a, {}).value, b, {}).value.Keys
    ensures Execute(p, table, a + b, {}).value.Keys == table.Keys + Keys(p, a + b)
  {
    ExecuteDistinct(p, table, a, {});
    var t1 := Execute(p, table, a, {}).value;
    ExecuteDistinct(p, t1, b, {});
    ExecuteDistinct(p, table, a + b, {});
  }

  /** One key of ExecuteSplit: the key holds the same row after a + b as after a and then b. */
  lemma ExecuteSplitAt<K, I, R>(p: Policy<K, I, R>, table: map<K, R>, a: seq<I>, b: seq<I>, x: K)
    requires DistinctKeys(p, a + b) && DistinctKeys(p, a) && DistinctKeys(p, b) && Keys(p, a) !! Keys(p, b)
    requires Keys(p, a + b) == Keys(p, a) + Keys(p, b)
    requires x in table || x in Keys(p, a + b)
    ensures Execute(p, table, a, {}).Ok? && Execute(p, Execute(p, table, a, {}).value, b, {}).Ok?
    ensures Execute(p, table, a + b, {}).Ok?
    ensures x in Execute(p, table, a + b, {}).value && x in Execute(p, Execute(p, table, a, {}).value, b, {}).value
    ensures Execute(p, table, a + b, {}).value[x] == Execute(p, Execute(p, table, a, {}).value, b, {}).value[x]
  {
    ExecuteDistinct(p, table, a, {});
    var t1 := Execute(p, table, a, {}).value;
    ExecuteDistinct(p, t1, b, {});
    ExecuteDistinct(p, table, a + b, {});
    if x in Keys(p, a) {
      var i :| 0 <= i < |a| && p.key(a[i]) == x;
      assert (a + b)[i] == a[i];
    } else if x in Keys(p, b) {
      var j :| 0 <= j < |b| && p.key(b[j]) == x;
      assert (a + b)[|a| + j] == b[j];
      assert Outcome1(p, t1, b[j]) == Outcome1(p, table, b[j]);
    }
  }

  /**
   * When no round trip fails and the keys are distinct, the statements together do what one
   * statement over all the rows would do: how the rows were cut makes no difference.
   */
  lemma {:induction false} SendAllClean<K, I, R>(p: Policy<K, I, R>, table: map<K, R>, chunks: seq<seq<I>>, round: nat, faulty: set<nat>)
    requires DistinctKeys(p, Flatten(chunks))
    requires forall q :: round <= q < round + |chunks| ==> q !in faulty
    ensures Execute(p, table, Flatten(chunks), {}).Ok?
    ensures SendAll(p, table, chunks, round, faulty) == Run(Execute(p, table, Flatten(chunks), {}).value, Pass, round + |chunks|)
    decreases |chunks|
  {
    if chunks == [] {
      assert Flatten(chunks) == [];
    } else {
      assert Flatten(chunks) == chunks[0] + Flatten(chunks[1..]);
      ExecuteSplit(p, table, chunks[0], Flatten(chunks[1..]));
      SendAllClean(p, Send(p, table, chunks[0], round, faulty).table, chunks[1..], round + 1, faulty);
    }
  }

  /** Cutting a clean batch into statements of n rows or of m rows ends in the same table. */
  lemma BatchSizeIrrelevant<K, I, R>(p: Policy<K, I, R>, table: map<K, R>, rows: seq<I>, n: nat, m: nat, round: nat, faulty: set<nat>)
    requires n > 0 && m > 0 && DistinctKeys(p, rows)
    requires forall q :: round <= q < round + |rows| ==> q !in faulty
    ensures SendAll(p, table, ChunksOf(rows, n), round, faulty).outcome.Pass?
    ensures SendAll(p, table, ChunksOf(rows, n), round, faulty).table == SendAll(p, table, ChunksOf(rows, m), round, faulty).table
  {
    ChunkCount(rows, n);
    ChunkCount(rows, m);
    SendAllClean(p, table, ChunksOf(rows, n), round, faulty);
    SendAllClean(p, table, ChunksOf(rows, m), round, faulty);
  }

  // ---- re-applying a batch ----

  /**
   * Re-applying a newest-wins batch whose rows all carry a timestamp changes nothing, even in a
   * later call (policy q): each row now meets a stored timestamp at least as new as its own.
   * (The stored timestamp of a row is the one it was last written from.)
   */
  lemma ExecuteReapply<K, I, R>(p: Policy<K, I, R>, q: Policy<K, I, R>, table: map<K, R>, rows: seq<I>)
    requires p.mode.NewestWins? && q.mode.NewestWins? && DistinctKeys(p, rows)
    requires forall i :: q.key(i) == p.key(i) && q.incomingStamp(i) == p.incomingStamp(i)
    requires forall r :: q.storedStamp(r) == p.storedStamp(r)
    requires forall i :: p.storedStamp(p.insert(i)) == p.incomingStamp(i)
    requires forall r, i :: p.storedStamp(p.update(r, i)) == p.incomingStamp(i)
    requires forall i :: 0 <= i < |rows| ==> p.incomingStamp(rows[i]).Some?
    ensures Execute(p, table, rows, {}).Ok?
    ensures var t := Execute(p, table, rows, {}).value; Execute(q, t, rows, {}) == Ok(t)
  {
    ExecuteDistinct(p, table, rows, {});
    var t := Execute(p, table, rows, {}).value;
    assert DistinctKeys(q, rows);
    assert Keys(q, rows) == Keys(p, rows);
    ExecuteDistinct(q, t, rows, {});
    var t2 := Execute(q, t, rows, {}).value;
    forall i | 0 <= i < |rows| ensures Outcome1(q, t, rows[i]) == t[p.key(rows[i])] {
      var k := p.key(rows[i]);
      assert k in t;
      if k !in table || Wins(p, table[k], rows[i]) {
        assert p.storedStamp(t[k]) == p.incomingStamp(rows[i]);
      } else {
        assert t[k] == table[k];
      }
    }
    assert t2 == t;
  }

  /**
   * Re-applying an overwrite batch with distinct keys leaves every row's `view` as the first
   * application left it, when the inserted and the updated row both take their view from the
   * incoming row alone (q is the same table's policy in a later call).
   */
  lemma OverwriteReapply<K, I, R, B>(p: Policy<K, I, R>, q: Policy<K, I, R>, table: map<K, R>, rows: seq<I>, view: R -> B, incoming: I -> B)
    requires p.mode.Overwrite? && q.mode.Overwrite? && DistinctKeys(p, rows)
    requires forall i :: q.key(i) == p.key(i)
    requires forall i :: view(p.insert(i)) == incoming(i) && view(q.insert(i)) == incoming(i)
    requires forall r, i :: view(p.update(r, i)) == incoming(i) && view(q.update(r, i)) == incoming(i)
    ensures Execute(p, table, rows, {}).Ok?
    ensures var t := Execute(p, table, rows, {}).value;
      Execute(q, t, rows, {}).Ok? && Execute(q, t, rows, {}).value.Keys == t.Keys &&
      forall k :: k in t ==> view(Execute(q, t, rows, {}).value[k]) == view(t[k])
  {
    ExecuteDistinct(p, table, rows, {});
    var t := Execute(p, table, rows, {}).value;
    assert DistinctKeys(q, rows);
    assert Keys(q, rows) == Keys(p, rows);
    ExecuteDistinct(q, t, rows, {});
    var t2 := Execute(q, t, rows, {}).value;
    forall k | k in t ensures view(t2[k]) == view(t[k]) {
      if k in Keys(p, rows) {
        var i :| 0 <= i < |rows| && p.key(rows[i]) == k;
        assert view(t2[k]) == incoming(rows[i]);
      }
    }
  }
}
