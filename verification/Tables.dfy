/** Keyed tables with insert-once writes and point-in-time reads: what `Store._insert` and
    `Store._read` of `currentflow/store/db.py` make of DuckDB.  A row's key is its primary key,
    which contains the `as_of` stamp. */
module Tables {
  import opened Sequences

  // ---- ON CONFLICT DO NOTHING --------------------------------------------------------------

  function InsertRow<K, V>(t: map<K, V>, row: (K, V)): map<K, V> {
    if row.0 in t then t else t[row.0 := row.1]
  }

  function InsertAll<K, V>(t: map<K, V>, rows: seq<(K, V)>): map<K, V> {
    if rows == [] then t else InsertRow(InsertAll(t, rows[..|rows| - 1]), rows[|rows| - 1])
  }

  /** Every entry of `t` is in `u`. */
  ghost predicate Within<K, V>(t: map<K, V>, u: map<K, V>) {
    forall k :: k in t ==> k in u && t[k] == u[k]
  }

  /** The keys after an insert are those before it and those of the rows, and what was stored
      stays as it was. */
  lemma {:induction false} InsertAllKeys<K, V>(t: map<K, V>, rows: seq<(K, V)>)
    ensures Within(t, InsertAll(t, rows))
    ensures forall k :: k in InsertAll(t, rows) <==> k in t || exists i :: 0 <= i < |rows| && rows[i].0 == k
    ensures forall k :: k in InsertAll(t, rows) && k !in t ==>
              exists i :: 0 <= i < |rows| && rows[i] == (k, InsertAll(t, rows)[k])
  {
    if rows != [] {
      var front, last := rows[..|rows| - 1], rows[|rows| - 1];
      InsertAllKeys(t, front);
      forall k | k in InsertAll(t, rows)
        ensures k in t || exists i :: 0 <= i < |rows| && rows[i] == (k, InsertAll(t, rows)[k])
      {
        if k in InsertAll(t, front) {
          if k !in t {
            var i :| 0 <= i < |front| && front[i] == (k, InsertAll(t, front)[k]);
            assert rows[i] == (k, InsertAll(t, rows)[k]);
          }
        } else {
          assert rows[|rows| - 1] == (k, InsertAll(t, rows)[k]);
        }
      }
      forall i | 0 <= i < |rows| ensures rows[i].0 in InsertAll(t, rows) {
        if i < |front| { assert front[i] == rows[i]; }
      }
    }
  }

  lemma {:induction false} InsertAllAppend<K, V>(t: map<K, V>, a: seq<(K, V)>, b: seq<(K, V)>)
    ensures InsertAll(t, a + b) == InsertAll(InsertAll(t, a), b)
  {
    if b == [] {
      assert a + b == a;
    } else {
      var front := b[..|b| - 1];
      InsertAllAppend(t, a, front);
      assert (a + b)[..|a + b| - 1] == a + front;
    }
  }

  /** Writing into a table is writing into an empty one and keeping the table's own rows. */
  lemma {:induction false} InsertAllOverlays<K, V>(t: map<K, V>, rows: seq<(K, V)>)
    ensures InsertAll(t, rows) == InsertAll(map[], rows) + t
  {
    if rows != [] {
      InsertAllOverlays(t, rows[..|rows| - 1]);
    }
  }

  lemma InsertPrefixWithin<K, V>(t: map<K, V>, rows: seq<(K, V)>, n: nat)
    requires n <= |rows|
    ensures Within(InsertAll(t, rows[..n]), InsertAll(t, rows))
  {
    assert rows == rows[..n] + rows[n..];
    InsertAllAppend(t, rows[..n], rows[n..]);
    InsertAllKeys(InsertAll(t, rows[..n]), rows[n..]);
  }

  /** Re-writing stored rows is a no-op. */
  lemma {:induction false} ReinsertIsNoOp<K, V>(t: map<K, V>, rows: seq<(K, V)>)
    ensures (forall i :: 0 <= i < |rows| ==> rows[i].0 in t) <==> InsertAll(t, rows).Keys == t.Keys
    ensures (forall i :: 0 <= i < |rows| ==> rows[i].0 in t) ==> InsertAll(t, rows) == t
  {
    InsertAllKeys(t, rows);
  }

  // ---- the look-ahead firewall ---------------------------------------------------------------

  /** What a table shows to a decision at `ts`. */
  function Below<K, V>(t: map<K, V>, asOf: K -> int, ts: int): map<K, V> {
    map k | k in t && asOf(k) < ts :: t[k]
  }

  function Visible<K, V>(rows: seq<(K, V)>, asOf: K -> int, ts: int): seq<(K, V)> {
    Filter(rows, (row: (K, V)) => asOf(row.0) < ts)
  }

  /** A write history shows a decision at `ts` exactly what its rows stamped before `ts`, in
      their order, would have stored on their own. */
  lemma {:induction false} BelowOfInsert<K, V>(t: map<K, V>, rows: seq<(K, V)>, asOf: K -> int, ts: int)
    ensures Below(InsertAll(t, rows), asOf, ts)
         == InsertAll(Below(t, asOf, ts), Visible(rows, asOf, ts))
  {
    if rows != [] {
      var front, last := rows[..|rows| - 1], rows[|rows| - 1];
      BelowOfInsert(t, front, asOf, ts);
      VisibleSnoc(front, last, asOf, ts);
      BelowOfRow(InsertAll(t, front), last, asOf, ts);
      assert rows == front + [last];
    }
  }

  lemma VisibleSnoc<K, V>(front: seq<(K, V)>, last: (K, V), asOf: K -> int, ts: int)
    ensures Visible(front + [last], asOf, ts)
            == if asOf(last.0) < ts then Visible(front, asOf, ts) + [last] else Visible(front, asOf, ts)
  {
    FilterAppend(front, [last], (row: (K, V)) => asOf(row.0) < ts);
  }

  lemma BelowOfRow<K, V>(t: map<K, V>, row: (K, V), asOf: K -> int, ts: int)
    ensures Below(InsertRow(t, row), asOf, ts)
            == if asOf(row.0) < ts then InsertRow(Below(t, asOf, ts), row) else Below(t, asOf, ts)
  {
  }

  /** Rows stamped at or after `ts` change nothing a decision at `ts` can see. */
  lemma FutureRowsInvisible<K, V>(t: map<K, V>, rows: seq<(K, V)>, asOf: K -> int, ts: int)
    requires forall i :: 0 <= i < |rows| ==> asOf(rows[i].0) >= ts
    ensures Below(InsertAll(t, rows), asOf, ts) == Below(t, asOf, ts)
  {
    BelowOfInsert(t, rows, asOf, ts);
    FilterNone(rows, (row: (K, V)) => asOf(row.0) < ts);
  }

  lemma BelowOfBelow<K, V>(t: map<K, V>, asOf: K -> int, ts: int, early: int)
    requires early <= ts
    ensures Below(Below(t, asOf, ts), asOf, early) == Below(t, asOf, early)
  {
  }
}
