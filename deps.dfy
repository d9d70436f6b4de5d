/**
 * `save_components_data`: the rows of one kind (`deptype`) uploaded for a
 * component replace the rows of that kind stored for it. The CycloneDX
 * upload sends its license rows as kind `license`, the SPDX upload as kind
 * `spdx_json`, so each replaces only earlier rows of its own format; the
 * safety upload's seven-field rows do not fit the nine-column insert and are
 * not modelled.
 *
 * The constraint `dm_componentdeps_pkey` is not spelled out in the
 * repository, so the table's key is a parameter of the table.
 */
module Deps {
  import opened Store
  import opened Retry

  /** A row of `dm_componentdeps`. */
  datatype DepRow = DepRow(compid: int, packagename: string, packageversion: string, deptype: string,
                           name: string, url: string, summary: string, purl: string, pkgtype: string)

  /** What `save_components_data` answers. */
  datatype SaveOutcome =
    | NotUpdated    // {"detail": "components not updated"}
    | Updated       // {"detail": "components updated succesfully"}, status 201
    | ServerError   // the connection failed on every attempt: HTTP 500

  /** Whether a row belongs to component `compid` and kind `deptype`. */
  predicate InPair(r: DepRow, compid: int, deptype: string) {
    r.compid == compid && r.deptype == deptype
  }

  /** The table after `DELETE ... where compid=%s and deptype=%s`. */
  function Deleted<K(!new)>(t: map<K, DepRow>, compid: int, deptype: string): (r: map<K, DepRow>)
    ensures forall k :: k in r <==> k in t && !InPair(t[k], compid, deptype)
    ensures forall k :: k in r ==> r[k] == t[k]
  {
    map k | k in t && !InPair(t[k], compid, deptype) :: t[k]
  }

  /** The table after the delete and the insert of the batch, duplicates removed. */
  function Saved<K(!new)>(t: map<K, DepRow>, key: DepRow -> K, compid: int, deptype: string, batch: seq<DepRow>)
    : map<K, DepRow>
  {
    InsertAll(Deleted(t, compid, deptype), key, Dedupe(batch))
  }

  /**
   * `list(set(batch))` may list the rows in any order. When no two distinct
   * rows of the batch share a key, every such order gives the table `Saved`
   * describes.
   */
  lemma SavedOrderFree<K(!new)>(t: map<K, DepRow>, key: DepRow -> K, compid: int, deptype: string,
                                batch: seq<DepRow>, listed: seq<DepRow>)
    requires forall x :: x in listed <==> x in batch
    requires KeysDistinct(key, batch)
    ensures InsertAll(Deleted(t, compid, deptype), key, listed) == Saved(t, key, compid, deptype, batch)
  {
    var u := Dedupe(batch);
    assert forall x :: x in u <==> x in batch;
    InsertAllOrderFree(Deleted(t, compid, deptype), key, u, listed);
  }

  /** Rows of other components or other kinds are neither changed nor removed. */
  lemma OtherPairsKept<K(!new)>(t: map<K, DepRow>, key: DepRow -> K, compid: int, deptype: string, batch: seq<DepRow>)
    ensures var s := Saved(t, key, compid, deptype, batch);
            forall k :: k in t && !InPair(t[k], compid, deptype) ==> k in s && s[k] == t[k]
  {
    InsertAllKeeps(Deleted(t, compid, deptype), key, Dedupe(batch));
  }

  /**
   * The old rows of the component and kind are gone: every row of theirs
   * after the save is a row of the batch. And every row of the batch has
   * its key taken.
   */
  lemma PairReplaced<K(!new)>(t: map<K, DepRow>, key: DepRow -> K, compid: int, deptype: string, batch: seq<DepRow>)
    ensures var s := Saved(t, key, compid, deptype, batch);
            forall k :: k in s && InPair(s[k], compid, deptype) ==> s[k] in batch
    ensures var s := Saved(t, key, compid, deptype, batch);
            forall i :: 0 <= i < |batch| ==> key(batch[i]) in s
  {
    var d := Deleted(t, compid, deptype);
    var u := Dedupe(batch);
    var s := InsertAll(d, key, u);
    InsertAllFrom(d, key, u);
    InsertAllKeys(d, key, u);
    InsertAllKeeps(d, key, u);
    forall k | k in s && InPair(s[k], compid, deptype)
      ensures s[k] in batch
    {
      var i :| 0 <= i < |u| && u[i] == s[k] && key(u[i]) == k;
    }
    forall i | 0 <= i < |batch|
      ensures key(batch[i]) in Saved(t, key, compid, deptype, batch)
    {
      var j :| 0 <= j < |u| && u[j] == batch[i];
      assert key(u[j]) in KeysOf(key, u);
    }
  }

  /**
   * Saving a batch of the component and kind a second time leaves the table
   * as the first save left it: an upload replaces, it does not accumulate.
   */
  lemma SaveTwice<K(!new)>(t: map<K, DepRow>, key: DepRow -> K, compid: int, deptype: string, batch: seq<DepRow>)
    requires forall i :: 0 <= i < |batch| ==> InPair(batch[i], compid, deptype)
    ensures var s := Saved(t, key, compid, deptype, batch);
            Saved(s, key, compid, deptype, batch) == s
  {
    var d := Deleted(t, compid, deptype);
    var u := Dedupe(batch);
    var s := InsertAll(d, key, u);
    InsertAllKeeps(d, key, u);
    InsertAllFrom(d, key, u);
    assert Deleted(s, compid, deptype) == d by {
      forall k | k in s && k !in d
        ensures InPair(s[k], compid, deptype)
      {
        var i :| 0 <= i < |u| && u[i] == s[k] && key(u[i]) == k;
        assert u[i] in batch;
      }
    }
  }

  /** The `dm_componentdeps` table, its rows under `key`. */
  class DepTable<K(==,!new)> {
    const key: DepRow -> K
    var rows: map<K, DepRow>

    constructor(key: DepRow -> K, rows: map<K, DepRow>)
      ensures this.key == key && this.rows == rows
    {
      this.key := key;
      this.rows := rows;
    }

    /** `DELETE from dm.dm_componentdeps where compid=%s and deptype=%s`. */
    method Delete(compid: int, deptype: string)
      modifies this
      ensures rows == Deleted(old(rows), compid, deptype)
    {
      rows := map k | k in rows && !InPair(rows[k], compid, deptype) :: rows[k];
    }

    /** `executemany` of the insert with `ON CONFLICT DO NOTHING`; the count is the rows added. */
    method InsertMany(batch: seq<DepRow>) returns (inserted: nat)
      modifies this
      ensures rows == InsertAll(old(rows), key, batch)
      ensures |rows| == |old(rows)| + inserted
    {
      inserted := 0;
      var i := 0;
      while i < |batch|
        invariant 0 <= i <= |batch|
        invariant rows == InsertAll(old(rows), key, batch[..i])
        invariant |rows| == |old(rows)| + inserted
      {
        assert batch[..i + 1][..i] == batch[..i];
        if key(batch[i]) !in rows {
          rows := rows[key(batch[i]) := batch[i]];
          inserted := inserted + 1;
        }
        i := i + 1;
      }
      assert batch[..i] == batch;
    }

    /**
     * `save_components_data` for component `compid` and kind `bomformat`;
     * `ok(a)` says whether attempt `a` gets through. A failed attempt's
     * transaction is not committed, so it leaves the table as it was.
     */
    method SaveComponentsData(compid: int, bomformat: string, batch: seq<DepRow>, ok: nat -> bool)
      returns (r: SaveOutcome)
      modifies this
      ensures batch == [] ==> r == NotUpdated && rows == old(rows)
      ensures batch != [] && FirstSuccess(ok, 1).None? ==> r == ServerError && rows == old(rows)
      ensures batch != [] && FirstSuccess(ok, 1).Some? ==>
                rows == Saved(old(rows), key, compid, bomformat, batch) &&
                r == (if |rows| > |Deleted(old(rows), compid, bomformat)| then Updated else NotUpdated)
    {
      if |batch| == 0 {
        return NotUpdated;
      }
      var unique := Dedupe(batch);
      var attempt := Attempt(ok);
      if !ok(attempt) {
        return ServerError;
      }
      Delete(compid, bomformat);
      var inserted := InsertMany(unique);
      if inserted > 0 {
        r := Updated;
      } else {
        r := NotUpdated;
      }
    }
  }
}
