/**
 * The relational store's keyed tables, as far as the service writes them:
 * `INSERT ... ON CONFLICT ... DO NOTHING` adds a row only when its key is
 * new, so the first row written under a key stays.
 */
module Store {

  /** Every row of `t` sits under its own key. */
  predicate Keyed<K, V>(t: map<K, V>, key: V -> K) {
    forall k :: k in t ==> key(t[k]) == k
  }

  /** One insert with `ON CONFLICT DO NOTHING`. */
  function InsertAbsent<K, V>(t: map<K, V>, k: K, v: V): (r: map<K, V>)
    ensures r.Keys == t.Keys + {k}
    ensures forall j :: j in t ==> r[j] == t[j]
    ensures k !in t ==> r[k] == v
  {
    if k in t then t else t[k := v]
  }

  /** The rows inserted one after the other, each under `key`. */
  function InsertAll<K, V>(t: map<K, V>, key: V -> K, rows: seq<V>): map<K, V>
    decreases |rows|
  {
    if rows == [] then t
    else InsertAbsent(InsertAll(t, key, rows[..|rows| - 1]), key(rows[|rows| - 1]), rows[|rows| - 1])
  }

  /** The keys of a batch of rows. */
  function KeysOf<K, V>(key: V -> K, rows: seq<V>): set<K> {
    set i | 0 <= i < |rows| :: key(rows[i])
  }

  /** Inserting a batch adds exactly the batch's keys. */
  lemma {:induction false} InsertAllKeys<K, V>(t: map<K, V>, key: V -> K, rows: seq<V>)
    ensures InsertAll(t, key, rows).Keys == t.Keys + KeysOf(key, rows)
    decreases |rows|
  {
    if rows != [] {
      var init := rows[..|rows| - 1];
      InsertAllKeys(t, key, init);
      assert KeysOf(key, rows) == KeysOf(key, init) + {key(rows[|rows| - 1])} by {
        assert forall i :: 0 <= i < |init| ==> init[i] == rows[i];
      }
    }
  }

  /** Inserting a batch never changes or drops a row already there: the first write wins. */
  lemma {:induction false} InsertAllKeeps<K, V>(t: map<K, V>, key: V -> K, rows: seq<V>)
    ensures forall k :: k in t ==> k in InsertAll(t, key, rows) && InsertAll(t, key, rows)[k] == t[k]
    decreases |rows|
  {
    if rows != [] {
      InsertAllKeeps(t, key, rows[..|rows| - 1]);
    }
  }

  /** Every row a batch adds is a row of the batch, under its own key. */
  lemma {:induction false} InsertAllFrom<K, V>(t: map<K, V>, key: V -> K, rows: seq<V>)
    ensures var r := InsertAll(t, key, rows);
            forall k :: k in r && k !in t ==> exists i :: 0 <= i < |rows| && rows[i] == r[k] && key(rows[i]) == k
    decreases |rows|
  {
    if rows != [] {
      var init := rows[..|rows| - 1];
      InsertAllFrom(t, key, init);
      var r := InsertAll(t, key, rows);
      forall k | k in r && k !in t
        ensures exists i :: 0 <= i < |rows| && rows[i] == r[k] && key(rows[i]) == k
      {
        if k in InsertAll(t, key, init) {
          var i :| 0 <= i < |init| && init[i] == r[k] && key(init[i]) == k;
          assert rows[i] == init[i];
        } else {
          assert rows[|rows| - 1] == r[k];
        }
      }
    }
  }

  /** Rows inserted under their own keys keep a keyed table keyed. */
  lemma {:induction false} InsertAllKeyed<K, V>(t: map<K, V>, key: V -> K, rows: seq<V>)
    requires Keyed(t, key)
    ensures Keyed(InsertAll(t, key, rows), key)
    decreases |rows|
  {
    if rows != [] {
      InsertAllKeyed(t, key, rows[..|rows| - 1]);
    }
  }

  /** Inserting `a` and then `b` is inserting `a + b`. */
  lemma {:induction false} InsertAllConcat<K, V>(t: map<K, V>, key: V -> K, a: seq<V>, b: seq<V>)
    ensures InsertAll(InsertAll(t, key, a), key, b) == InsertAll(t, key, a + b)
    decreases |b|
  {
    if b != [] {
      var init := b[..|b| - 1];
      var x := b[|b| - 1];
      InsertAllConcat(t, key, a, init);
      assert (a + b)[..|a + b| - 1] == a + init;
      assert (a + b)[|a + b| - 1] == x;
      assert InsertAll(t, key, a + b) == InsertAbsent(InsertAll(t, key, a + init), key(x), x);
    } else {
      assert a + b == a;
    }
  }

  /** A batch whose keys are all present changes nothing. */
  lemma {:induction false} InsertAllPresent<K, V>(t: map<K, V>, key: V -> K, rows: seq<V>)
    requires forall i :: 0 <= i < |rows| ==> key(rows[i]) in t
    ensures InsertAll(t, key, rows) == t
    decreases |rows|
  {
    if rows != [] {
      InsertAllPresent(t, key, rows[..|rows| - 1]);
    }
  }

  /** Running the same batch twice is running it once: a repeated batch is dropped as duplicates. */
  lemma InsertAllTwice<K, V>(t: map<K, V>, key: V -> K, rows: seq<V>)
    ensures InsertAll(InsertAll(t, key, rows), key, rows) == InsertAll(t, key, rows)
  {
    InsertAllKeys(t, key, rows);
    forall i | 0 <= i < |rows|
      ensures key(rows[i]) in InsertAll(t, key, rows)
    {
      assert key(rows[i]) in KeysOf(key, rows);
    }
    InsertAllPresent(InsertAll(t, key, rows), key, rows);
  }

  /** Python's `list(set(rows))`: each row once, here in the order of first occurrence. */
  function Dedupe<V(==)>(rows: seq<V>): (r: seq<V>)
    ensures forall i :: 0 <= i < |rows| ==> rows[i] in r
    ensures forall i :: 0 <= i < |r| ==> r[i] in rows
    ensures forall i, j :: 0 <= i < j < |r| ==> r[i] != r[j]
    ensures |r| <= |rows|
    decreases |rows|
  {
    if rows == [] then []
    else
      var d := Dedupe(rows[..|rows| - 1]);
      var x := rows[|rows| - 1];
      assert rows == rows[..|rows| - 1] + [x];
      if x in d then d else d + [x]
  }

  /** Removing exact duplicates before inserting changes nothing: a repeated row finds its key taken. */
  lemma {:induction false} DedupeHarmless<K, V>(t: map<K, V>, key: V -> K, rows: seq<V>)
    ensures InsertAll(t, key, Dedupe(rows)) == InsertAll(t, key, rows)
    decreases |rows|
  {
    if rows != [] {
      var init := rows[..|rows| - 1];
      var x := rows[|rows| - 1];
      var d := Dedupe(init);
      DedupeHarmless(t, key, init);
      if x in d {
        var i :| 0 <= i < |d| && d[i] == x;
        InsertAllKeys(t, key, d);
        assert key(x) in KeysOf(key, d);
      } else {
        assert (d + [x])[..|d + [x]| - 1] == d;
      }
    }
  }
  /** No two distinct rows of a batch share a key. */
  ghost predicate KeysDistinct<K, V>(key: V -> K, rows: seq<V>) {
    forall x, y :: x in rows && y in rows && key(x) == key(y) ==> x == y
  }

  /**
   * When no two distinct rows share a key, the order of the batch does not
   * matter: any batch with the same rows gives the same table.
   */
  lemma InsertAllOrderFree<K, V>(t: map<K, V>, key: V -> K, a: seq<V>, b: seq<V>)
    requires forall x :: x in a <==> x in b
    requires KeysDistinct(key, a)
    ensures InsertAll(t, key, a) == InsertAll(t, key, b)
  {
    var ra := InsertAll(t, key, a);
    var rb := InsertAll(t, key, b);
    InsertAllKeys(t, key, a);
    InsertAllKeys(t, key, b);
    forall k | k in KeysOf(key, a)
      ensures k in KeysOf(key, b)
    {
      var i :| 0 <= i < |a| && key(a[i]) == k;
      assert a[i] in b;
      var j :| 0 <= j < |b| && b[j] == a[i];
    }
    forall k | k in KeysOf(key, b)
      ensures k in KeysOf(key, a)
    {
      var j :| 0 <= j < |b| && key(b[j]) == k;
      assert b[j] in a;
      var i :| 0 <= i < |a| && a[i] == b[j];
    }
    assert ra.Keys == rb.Keys;
    InsertAllKeeps(t, key, a);
    InsertAllKeeps(t, key, b);
    InsertAllFrom(t, key, a);
    InsertAllFrom(t, key, b);
    forall k | k in ra
      ensures ra[k] == rb[k]
    {
      if k !in t {
        var i :| 0 <= i < |a| && a[i] == ra[k] && key(a[i]) == k;
        var j :| 0 <= j < |b| && b[j] == rb[k] && key(b[j]) == k;
        assert b[j] in a;
      }
    }
  }

  /** Two distinct rows under one key: the one inserted first stays, so order decides. */
  lemma OrderDecidesSharedKey()
    ensures var key := (x: int) => x / 10;
            InsertAll(map[], key, [10, 11]) == map[1 := 10] &&
            InsertAll(map[], key, [11, 10]) == map[1 := 11]
  {
    var key := (x: int) => x / 10;
    assert [10, 11][..1] == [10];
    assert [11, 10][..1] == [11];
    assert InsertAll(map[], key, [10]) == map[1 := 10];
    assert InsertAll(map[], key, [11]) == map[1 := 11];
  }
}
