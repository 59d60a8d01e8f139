/**
 One names table (`longnames` or `shortnames`) and the cursor operations on it, with the
 chunked loops that keep each statement below SQLite's parameter limit.
 */
module NameTables {
  import opened Wrappers
  import opened NodeNames

  /** Rows by id.  The name column may be NULL or empty when something else wrote it. */
  type Rows = map<string, Name>

  /** `_normalize_node_name_value` on a stored value. */
  function Clean(stored: Name): Name {
    if stored == Some("") then None else stored
  }

  /** What a drift check reads: the rows of the requested ids, and no others. */
  function ReadValues(rows: Rows, ids: set<string>): map<string, Name> {
    map id | id in rows && id in ids :: Clean(rows[id])
  }

  /** The table after one name is written; a missing name deletes only under a complete snapshot. */
  function Saved(rows: Rows, id: string, name: Name, complete: bool): Rows {
    match name
    case Some(v) => rows[id := Some(v)]
    case None => if complete then rows - {id} else rows
  }

  function Elements(q: seq<string>): set<string> {
    set x | x in q
  }

  predicate Distinct(q: seq<string>) {
    forall i, j | 0 <= i < j < |q| :: q[i] != q[j]
  }

  lemma ChunkOfDistinct(q: seq<string>, i: nat, end: nat)
    requires Distinct(q) && i <= end <= |q|
    ensures Distinct(q[i..end]) && Elements(q[i..end]) <= Elements(q)
    ensures Elements(q[..i]) !! Elements(q[i..end])
    ensures Elements(q[..end]) == Elements(q[..i]) + Elements(q[i..end])
  {
    assert q[..end] == q[..i] + q[i..end];
  }

  lemma RemoveTwice(m: Rows, a: set<string>, b: set<string>)
    ensures m - a - b == m - (a + b)
    ensures b <= m.Keys && a !! b ==> b <= (m - a).Keys
  {
  }

  lemma NothingListed(q: seq<string>)
    ensures Elements(q[..0]) == {}
  {
  }

  /** The table without the first `n` of the ids. */
  function Without(m: Rows, q: seq<string>, n: nat): Rows
    requires n <= |q|
  {
    m - Elements(q[..n])
  }

  lemma NothingDeleted(m: Rows, q: seq<string>)
    ensures Without(m, q, 0) == m && Without(m, q, |q|) == m - Elements(q)
  {
    assert q[..|q|] == q && q[..0] == [];
  }

  lemma ChunkIsThere(m: Rows, q: seq<string>, i: nat, end: nat)
    requires Distinct(q) && Elements(q) <= m.Keys && i <= end <= |q|
    ensures Elements(q[i..end]) <= Without(m, q, i).Keys
    ensures Without(m, q, end) == Without(m, q, i) - Elements(q[i..end])
  {
    ChunkOfDistinct(q, i, end);
    RemoveTwice(m, Elements(q[..i]), Elements(q[i..end]));
    hide Elements, Distinct;
  }

  function Min(a: nat, b: nat): nat {
    if a < b then a else b
  }

  /** A set as a sequence, in no particular order. */
  method Listed(s: set<string>) returns (q: seq<string>)
    ensures Elements(q) == s && |q| == |s| && Distinct(q)
  {
    q := [];
    var rest := s;
    while rest != {}
      invariant rest <= s
      invariant forall x :: x in q <==> x in s - rest
      invariant |q| == |s| - |rest|
      invariant forall i, j | 0 <= i < j < |q| :: q[i] != q[j]
    {
      var x :| x in rest;
      q := q + [x];
      rest := rest - {x};
    }
  }

  class NameTable {
    var rows: Rows

    constructor ()
      ensures rows == map[]
    {
      rows := map[];
    }

    method Upsert(id: string, name: string)
      modifies this
      ensures rows == old(rows)[id := Some(name)]
    {
      rows := rows[id := Some(name)];
    }

    method Delete(id: string) returns (rowCount: nat)
      modifies this
      ensures rows == old(rows) - {id}
      ensures rowCount == if id in old(rows) then 1 else 0
    {
      rowCount := if id in rows then 1 else 0;
      rows := rows - {id};
    }

    /** `cursor.executemany(delete_sql, chunk)` and its row count. */
    method DeleteMany(ids: seq<string>) returns (rowCount: nat)
      requires Distinct(ids) && Elements(ids) <= rows.Keys
      modifies this
      ensures rows == old(rows) - Elements(ids)
      ensures rowCount == |ids|
    {
      rowCount := 0;
      for k := 0 to |ids|
        invariant rowCount == k
        invariant rows == old(rows) - Elements(ids[..k])
      {
        assert ids[k] in Elements(ids) && ids[k] !in ids[..k];
        assert ids[..k + 1] == ids[..k] + [ids[k]];
        var one := Delete(ids[k]);
        rowCount := rowCount + one;
      }
      assert ids[..|ids|] == ids;
    }

    /** The batches of `_delete_stale_names_core`, for any chunk size. */
    method DeleteChunks(staleIds: seq<string>, chunkSize: nat) returns (deleted: nat)
      requires chunkSize > 0 && Distinct(staleIds) && Elements(staleIds) <= rows.Keys
      modifies this
      ensures rows == old(rows) - Elements(staleIds)
      ensures deleted == |staleIds|
    {
      ghost var rows0 := rows;
      NothingDeleted(rows0, staleIds);
      hide Distinct, Elements, Without;
      deleted := 0;
      var i := 0;
      while i < |staleIds|
        invariant deleted == Min(i, |staleIds|)
        invariant rows == Without(rows0, staleIds, deleted)
      {
        var end := Min(i + chunkSize, |staleIds|);
        ChunkOfDistinct(staleIds, i, end);
        ChunkIsThere(rows0, staleIds, i, end);
        var rowCount := DeleteMany(staleIds[i..end]);
        deleted := deleted + rowCount;
        i := i + chunkSize;
      }
    }

    /** `_delete_stale_names_core`: whatever the chunk size, exactly the rows of other ids go,
        and their number is returned. */
    method DeleteStale(currentIds: set<string>, chunkSize: nat) returns (deleted: nat)
      requires chunkSize > 0
      modifies this
      ensures rows == old(rows) - (old(rows).Keys - currentIds)
      ensures deleted == |old(rows).Keys - currentIds|
    {
      var staleIds := Listed(rows.Keys - currentIds);
      deleted := DeleteChunks(staleIds, chunkSize);
    }

    /** `_read_name_values_for_ids`. */
    method ReadForIds(ids: set<string>, chunkSize: nat) returns (values: map<string, Name>)
      requires chunkSize > 0
      ensures values == ReadValues(rows, ids)
    {
      values := map[];
      var sortedIds := Listed(ids);
      var offset := 0;
      while offset < |sortedIds|
        invariant values == ReadValues(rows, Elements(sortedIds[..Min(offset, |sortedIds|)]))
      {
        var end := Min(offset + chunkSize, |sortedIds|);
        var chunk := sortedIds[offset..end];
        assert sortedIds[..end] == sortedIds[..offset] + chunk;
        values := values + ReadValues(rows, Elements(chunk));
        offset := offset + chunkSize;
      }
      assert sortedIds[..|sortedIds|] == sortedIds;
      assert Elements(sortedIds) == ids;
    }
  }
}
