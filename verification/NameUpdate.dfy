/**
 `_update_names_core` (behind `update_longnames` and `update_shortnames`): one field, one
 transaction per name, each of which may fail, and stale rows pruned only when all went well.
 */
module NameUpdates {
  import opened Wrappers
  import opened NodeNames
  import opened SnapshotCollector
  import opened SingleFieldCollector
  import opened NameTables

  /** Write the names of the ids in `done`; the transactions of the ids in `failing` fail. */
  function Written(rows: Rows, names: map<string, Name>, done: set<string>, complete: bool, failing: set<string>): Rows {
    map id | id in rows.Keys + names.Keys
             && (if id in names && id in done && id !in failing then names[id].Some? || (!complete && id in rows)
                 else id in rows)
           :: if id in names && id in done && id !in failing && names[id].Some? then names[id] else rows[id]
  }

  /** One transaction. */
  function AfterSave(rows: Rows, id: string, name: Name, complete: bool, fails: bool): Rows {
    if fails then rows else Saved(rows, id, name, complete)
  }

  /** Every transaction the names in `done` call for succeeds. */
  predicate AllSaved(names: map<string, Name>, done: set<string>, complete: bool, failing: set<string>) {
    forall id | id in names && id in done && id in failing :: names[id] == None && !complete
  }

  datatype Update = Update(rows: Rows, ok: bool)

  function UpdateNames(rows: Rows, nodes: seq<Node>, which: Which, failing: set<string>, pruneFails: bool): Update {
    if nodes == [] then Update(rows, true)
    else
      var c := CollectSingle(nodes, which);
      var written := Written(rows, c.state, c.state.Keys, c.complete, failing);
      var saved := AllSaved(c.state, c.state.Keys, c.complete, failing);
      if c.ids != {} && c.complete && saved then
        if pruneFails then Update(written, false) else Update(written - (written.Keys - c.ids), true)
      else Update(written, saved)
  }

  /** The rows the names stand for. */
  function Known(names: map<string, Name>): Rows {
    map id | id in names && names[id].Some? :: names[id]
  }

  /** A successful update from a complete snapshot leaves exactly the names of the snapshot. */
  lemma SuccessIsExact(rows: Rows, nodes: seq<Node>, which: Which, failing: set<string>, pruneFails: bool)
    requires nodes != [] && CollectSingle(nodes, which).complete
    requires UpdateNames(rows, nodes, which, failing, pruneFails).ok
    ensures UpdateNames(rows, nodes, which, failing, pruneFails).rows == Known(CollectSingle(nodes, which).state)
  {
    var c := CollectSingle(nodes, which);
    SingleIsDescribed(nodes, which);
    hide CollectSingle, Conflicted;
    var n := nodes[0];
    assert n in nodes;
    assert DescribesId(nodes, which, c, n.id);
    forall id ensures id in c.ids <==> id in c.state {
      assert DescribesId(nodes, which, c, id);
    }
    assert c.ids == c.state.Keys;
  }

  /** An update reports success exactly when no transaction it called for failed: the one of a name,
      or of a node without a name under a complete snapshot, or the final prune. */
  lemma SuccessIff(rows: Rows, nodes: seq<Node>, which: Which, failing: set<string>, pruneFails: bool)
    ensures var c := CollectSingle(nodes, which);
      UpdateNames(rows, nodes, which, failing, pruneFails).ok <==>
        || nodes == []
        || (&& (forall id :: id in c.state && id in failing ==> c.state[id] == None && !c.complete)
            && (c.complete ==> !pruneFails))
  {
    if nodes != [] {
      SingleIsDescribed(nodes, which);
      assert nodes[0] in nodes;
      assert DescribesId(nodes, which, CollectSingle(nodes, which), if nodes[0].Entry? then nodes[0].id else "");
      hide CollectSingle, Conflicted;
    }
  }

  /** An update deletes a row only under a complete snapshot: either the row of a node of the
      snapshot that now has no name, or, once every name was written, the row of an absent node. */
  lemma DeletionIsJustified(rows: Rows, nodes: seq<Node>, which: Which, failing: set<string>, pruneFails: bool, id: string)
    requires id in rows && id !in UpdateNames(rows, nodes, which, failing, pruneFails).rows
    ensures AllTyped(nodes, which)
    ensures if Carried(nodes, id) then forall v :: !Carries(nodes, which, id, v)
            else UpdateNames(rows, nodes, which, failing, pruneFails).ok
  {
    var c := CollectSingle(nodes, which);
    SingleIsDescribed(nodes, which);
    assert DescribesId(nodes, which, c, id);
    hide CollectSingle, Conflicted, Carries, Carried, Typed;
  }

  /** Every name whose transaction succeeds arrives, and every other row that is left is untouched. */
  lemma RowsAreOldOrNew(rows: Rows, nodes: seq<Node>, which: Which, failing: set<string>, pruneFails: bool, id: string)
    requires nodes != []
    ensures var names := CollectSingle(nodes, which).state;
            var after := UpdateNames(rows, nodes, which, failing, pruneFails).rows;
      if id in names && names[id].Some? && id !in failing then id in after && after[id] == names[id]
      else id in after ==> id in rows && after[id] == rows[id]
  {
    SingleIsDescribed(nodes, which);
    assert DescribesId(nodes, which, CollectSingle(nodes, which), id);
    hide CollectSingle, Conflicted, Carries, Carried, Typed;
  }

  lemma WrittenStep(rows: Rows, names: map<string, Name>, done: set<string>, complete: bool, failing: set<string>, id: string)
    requires id in names && id !in done
    ensures var before := Written(rows, names, done, complete, failing);
            var after := Written(rows, names, done + {id}, complete, failing);
      after == AfterSave(before, id, names[id], complete, id in failing)
    ensures AllSaved(names, done + {id}, complete, failing)
        <==> AllSaved(names, done, complete, failing) && (id in failing ==> names[id] == None && !complete)
  {
  }

  lemma WrittenNothing(rows: Rows, names: map<string, Name>, complete: bool, failing: set<string>)
    ensures Written(rows, names, {}, complete, failing) == rows
    ensures AllSaved(names, {}, complete, failing)
  {
  }

  /** One transaction: `save_name` or `delete_name`. */
  method SaveName(table: NameTable, id: string, name: Name, complete: bool, fails: bool) returns (ok: bool)
    modifies table
    ensures ok == (fails ==> name == None && !complete)
    ensures table.rows == AfterSave(old(table.rows), id, name, complete, fails)
  {
    if name == None {
      if complete && !fails {
        var _ := table.Delete(id);
      }
      return !(complete && fails);
    }
    if !fails {
      table.Upsert(id, name.value);
    }
    return !fails;
  }

  lemma NextItem(items: seq<string>, i: nat)
    requires Distinct(items) && i < |items|
    ensures items[i] in Elements(items) && items[i] !in Elements(items[..i])
    ensures Elements(items[..i + 1]) == Elements(items[..i]) + {items[i]}
  {
    assert items[..i + 1] == items[..i] + [items[i]];
  }

  method SaveNames(table: NameTable, names: map<string, Name>, complete: bool, failing: set<string>)
    returns (allSavesOk: bool)
    modifies table
    ensures table.rows == Written(old(table.rows), names, names.Keys, complete, failing)
    ensures allSavesOk == AllSaved(names, names.Keys, complete, failing)
  {
    allSavesOk := true;
    var items := Listed(names.Keys);
    ghost var rows0 := table.rows;
    ghost var done: set<string> := {};
    NothingListed(items);
    WrittenNothing(rows0, names, complete, failing);
    hide Written, AfterSave, AllSaved, Distinct, Elements;
    for i := 0 to |items|
      invariant done == Elements(items[..i])
      invariant table.rows == Written(rows0, names, done, complete, failing)
      invariant allSavesOk == AllSaved(names, done, complete, failing)
    {
      var id := items[i];
      NextItem(items, i);
      WrittenStep(rows0, names, done, complete, failing, id);
      var ok := SaveName(table, id, names[id], complete, id in failing);
      allSavesOk := allSavesOk && ok;
      done := done + {id};
    }
    assert items[..|items|] == items;
  }

  method UpdateNamesCore(table: NameTable, nodes: seq<Node>, which: Which, failing: set<string>, pruneFails: bool, chunkSize: nat)
    returns (allSavesOk: bool)
    requires chunkSize > 0
    modifies table
    ensures Update(table.rows, allSavesOk) == UpdateNames(old(table.rows), nodes, which, failing, pruneFails)
  {
    if nodes == [] {
      return true;
    }
    var names, currentIds, complete := CollectSingleNameSnapshot(nodes, which);
    allSavesOk := SaveNames(table, names, complete, failing);
    if currentIds != {} && complete && allSavesOk {
      if pruneFails {
        allSavesOk := false;
      } else {
        var _ := table.DeleteStale(currentIds, chunkSize);
      }
    }
  }
}
