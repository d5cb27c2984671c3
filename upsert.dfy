/** A table keyed by its primary key, and the loader's loop of `INSERT ... ON DUPLICATE KEY
    UPDATE` statements over it, one per row of a frame.  `write(stored, row)` is what one
    statement leaves under the row's key: a fresh row built from `row` when nothing is
    stored (`None`), otherwise the stored row with the updated columns overwritten. */
module Upsert {
  import opened Wrappers
  import opened Frames

  /** The row stored under `k`, if any. */
  function Get<K, R>(t: map<K, R>, k: K): (r: Option<R>)
    ensures r.Some? <==> k in t
    ensures r.Some? ==> r.value == t[k]
  {
    if k in t then Some(t[k]) else None
  }

  /** Tables are equal when they store the same row, or none, under every key. */
  lemma TablesEqual<K, R>(a: map<K, R>, b: map<K, R>)
    requires forall k :: Get(a, k) == Get(b, k)
    ensures a == b
  {
    assert a.Keys == b.Keys by {
      forall k ensures k in a <==> k in b {
        assert Get(a, k).Some? <==> Get(b, k).Some?;
      }
    }
    forall k | k in a ensures a[k] == b[k] {
      assert Get(a, k) == Get(b, k);
    }
  }

  /** One statement: the key now holds `write` of what it held; every other key is
      untouched. */
  function UpsertOne<T, K, R>(t: map<K, R>, row: T, key: T -> K, write: (Option<R>, T) -> R)
    : (t': map<K, R>)
    ensures t'.Keys == t.Keys + {key(row)}
    ensures forall k :: k in t && k != key(row) ==> t'[k] == t[k]
    ensures Get(t', key(row)) == Some(write(Get(t, key(row)), row))
  {
    t[key(row) := write(Get(t, key(row)), row)]
  }

  /** The statements of a whole frame, in row order. */
  function UpsertAll<T, K, R>(t: map<K, R>, rows: seq<T>, key: T -> K,
                              write: (Option<R>, T) -> R): (t': map<K, R>)
  {
    if rows == [] then t
    else UpsertOne(UpsertAll(t, rows[..|rows| - 1], key, write), rows[|rows| - 1], key, write)
  }

  /** The rows of the frame that carry key `k`, in order. */
  function RowsWithKey<T, K(==)>(rows: seq<T>, key: T -> K, k: K): (r: seq<T>)
    ensures forall x :: x in r ==> x in rows && key(x) == k
  {
    if rows == [] then []
    else
      RowsWithKey(rows[..|rows| - 1], key, k)
        + (if key(rows[|rows| - 1]) == k then [rows[|rows| - 1]] else [])
  }

  /** What one key ends up holding after the statements for `rows`, all with that key, starting
      from `stored`. */
  function Replay<T, R>(stored: Option<R>, rows: seq<T>, write: (Option<R>, T) -> R)
    : (r: Option<R>)
    ensures rows == [] ==> r == stored
    ensures rows != [] ==> r.Some?
  {
    if rows == [] then stored
    else Some(write(Replay(stored, rows[..|rows| - 1], write), rows[|rows| - 1]))
  }

  /** Keys evolve independently: what a key holds after the loop is its old row replayed
      through the statements for the rows with that key, and only those. */
  lemma {:induction false} UpsertAllAt<T, K, R>(t: map<K, R>, rows: seq<T>, key: T -> K,
                                                write: (Option<R>, T) -> R, k: K)
    ensures Get(UpsertAll(t, rows, key, write), k)
            == Replay(Get(t, k), RowsWithKey(rows, key, k), write)
  {
    if rows != [] {
      var init, last := rows[..|rows| - 1], rows[|rows| - 1];
      UpsertAllAt(t, init, key, write, k);
      var before := RowsWithKey(init, key, k);
      var mid := UpsertAll(t, init, key, write);
      assert UpsertAll(t, rows, key, write) == UpsertOne(mid, last, key, write);
      if key(last) == k {
        assert RowsWithKey(rows, key, k) == before + [last];
        assert (before + [last])[..|before|] == before;
        assert Replay(Get(t, k), before + [last], write)
            == Some(write(Replay(Get(t, k), before, write), last));
      } else {
        assert RowsWithKey(rows, key, k) == before;
      }
    }
  }

  /** The statements insert exactly the keys of the frame: the key set becomes the old key set
      united with the frame's keys. */
  lemma {:induction false} UpsertAllKeys<T, K, R>(t: map<K, R>, rows: seq<T>, key: T -> K,
                                                  write: (Option<R>, T) -> R)
    ensures UpsertAll(t, rows, key, write).Keys == t.Keys + KeySet(rows, key)
  {
    if rows != [] {
      var init := rows[..|rows| - 1];
      UpsertAllKeys(t, init, key, write);
      assert KeySet(rows, key) == KeySet(init, key) + {key(rows[|rows| - 1])} by {
        forall x | x in KeySet(rows, key) ensures x in KeySet(init, key) + {key(rows[|rows| - 1])} {
          var i :| 0 <= i < |rows| && key(rows[i]) == x;
          if i < |init| {
            assert key(init[i]) == x;
          }
        }
        forall x | x in KeySet(init, key) ensures x in KeySet(rows, key) {
          var i :| 0 <= i < |init| && key(init[i]) == x;
          assert key(rows[i]) == x;
        }
      }
    }
  }

  /** A key the frame does not carry has no statement. */
  lemma {:induction false} RowsWithAbsentKey<T, K>(rows: seq<T>, key: T -> K, k: K)
    requires k !in KeySet(rows, key)
    ensures RowsWithKey(rows, key, k) == []
  {
    if rows != [] {
      var init := rows[..|rows| - 1];
      assert KeySet(init, key) <= KeySet(rows, key) by {
        forall x | x in KeySet(init, key) ensures x in KeySet(rows, key) {
          var i :| 0 <= i < |init| && key(init[i]) == x;
          assert key(rows[i]) == x;
        }
      }
      RowsWithAbsentKey(init, key, k);
      assert key(rows[|rows| - 1]) in KeySet(rows, key);
    }
  }

  /** Keys the frame does not carry keep their rows. */
  lemma UpsertAllFrame<T, K, R>(t: map<K, R>, rows: seq<T>, key: T -> K,
                                write: (Option<R>, T) -> R, k: K)
    requires k !in KeySet(rows, key)
    ensures Get(UpsertAll(t, rows, key, write), k) == Get(t, k)
  {
    UpsertAllAt(t, rows, key, write, k);
    RowsWithAbsentKey(rows, key, k);
  }

  /** The last statement for a key is the last row of the frame with that key. */
  lemma {:induction false} LastRowWithKey<T, K>(rows: seq<T>, key: T -> K, i: int)
    requires 0 <= i < |rows|
    requires forall j :: i < j < |rows| ==> key(rows[j]) != key(rows[i])
    ensures var r := RowsWithKey(rows, key, key(rows[i]));
            r != [] && r[|r| - 1] == rows[i]
  {
    var init := rows[..|rows| - 1];
    if i < |rows| - 1 {
      LastRowWithKey(init, key, i);
    }
  }

  /** The first statement for a key is the first row of the frame with that key. */
  lemma {:induction false} FirstRowWithKey<T, K>(rows: seq<T>, key: T -> K, i: int)
    requires 0 <= i < |rows| && IsFirst(rows, key, i)
    ensures var r := RowsWithKey(rows, key, key(rows[i]));
            r != [] && r[0] == rows[i]
  {
    var init := rows[..|rows| - 1];
    if i < |rows| - 1 {
      FirstRowWithKey(init, key, i);
    } else {
      assert key(rows[i]) !in KeySet(init, key);
      RowsWithAbsentKey(init, key, key(rows[i]));
    }
  }
}
