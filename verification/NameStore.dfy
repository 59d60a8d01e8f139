/**
 The two names tables behind one connection, and the functions of db_utils.py that change
 them, loop by loop, proved against the specifications in NameSync.
 */
module NameStores {
  import opened Wrappers
  import opened NodeNames
  import opened SnapshotCollector
  import opened NameTables
  import opened NameSync

  /** The part of a state that concerns the ids in `done`. */
  function Part(state: State, done: set<string>): State {
    map id | id in state && id in done :: state[id]
  }

  function EntryIds(entries: seq<NameEntry>): set<string> {
    set e | e in entries :: e.id
  }

  /** Writing one more entry of the state. */
  lemma AppliedStep(rows: Rows, state: State, done: set<string>, which: Which, complete: bool, id: string)
    requires id in state && id !in done
    ensures var before := Applied(rows, Part(state, done), which, complete);
            var after := Applied(rows, Part(state, done + {id}), which, complete);
      after == Saved(before, id, state[id].Get(which), complete)
  {
  }

  lemma TupleOnce(state: State, i: nat)
    requires i < |Tuple(state)|
    ensures Tuple(state)[i].id !in EntryIds(Tuple(state)[..i])
    ensures EntryIds(Tuple(state)[..i + 1]) == EntryIds(Tuple(state)[..i]) + {Tuple(state)[i].id}
  {
    var t := Tuple(state);
    SortedIdsDiffer(t);
    assert t[..i + 1] == t[..i] + [t[i]];
  }

  /** The table after these entries are written one after another. */
  function SavedAll(rows: Rows, entries: seq<NameEntry>, which: Which, complete: bool): Rows {
    if entries == [] then rows
    else
      var last := entries[|entries| - 1];
      Saved(SavedAll(rows, entries[..|entries| - 1], which, complete), last.id, last.names.Get(which), complete)
  }

  lemma SavedNext(rows: Rows, entries: seq<NameEntry>, i: nat, which: Which, complete: bool)
    requires i < |entries|
    ensures SavedAll(rows, entries[..i + 1], which, complete)
         == Saved(SavedAll(rows, entries[..i], which, complete), entries[i].id, entries[i].names.Get(which), complete)
  {
    assert entries[..i + 1][..i] == entries[..i];
  }

  /** Writing the first `n` entries of the state applies that part of the state. */
  lemma {:induction false} SavedIsApplied(rows: Rows, state: State, n: nat, which: Which, complete: bool)
    requires n <= |Tuple(state)|
    ensures SavedAll(rows, Tuple(state)[..n], which, complete)
         == Applied(rows, Part(state, EntryIds(Tuple(state)[..n])), which, complete)
  {
    var entries := Tuple(state);
    if n > 0 {
      var entry := entries[n - 1];
      assert entry in entries;
      SavedIsApplied(rows, state, n - 1, which, complete);
      SavedNext(rows, entries, n - 1, which, complete);
      TupleOnce(state, n - 1);
      AppliedStep(rows, state, EntryIds(entries[..n - 1]), which, complete, entry.id);
      hide SavedAll, Saved, Applied, Part, EntryIds;
    }
  }

  lemma TupleIsApplied(rows: Rows, state: State, which: Which, complete: bool)
    ensures SavedAll(rows, Tuple(state), which, complete) == Applied(rows, state, which, complete)
  {
    var entries := Tuple(state);
    assert entries[..|entries|] == entries;
    SavedIsApplied(rows, state, |entries|, which, complete);
    hide SavedAll, Applied;
    forall id | id in state ensures id in EntryIds(entries) {
      assert NameEntry(id, state[id]) in entries;
    }
    assert Part(state, EntryIds(entries)) == state;
  }

  class NameStore {
    const longnames: NameTable
    const shortnames: NameTable
    const chunkSize: nat

    ghost predicate Valid() {
      longnames != shortnames && chunkSize > 0
    }

    ghost function View(): Store
      reads longnames, shortnames
    {
      Store(longnames.rows, shortnames.rows)
    }

    constructor (chunkSize: nat)
      requires chunkSize > 0
      ensures Valid() && View() == Store(map[], map[])
    {
      longnames := new NameTable();
      shortnames := new NameTable();
      this.chunkSize := chunkSize;
    }

    function Table(which: Which): NameTable {
      if which.Long? then longnames else shortnames
    }

    /** One field of one entry inside `_sync`. */
    method WriteName(which: Which, id: string, name: Name, complete: bool)
      requires Valid()
      modifies Table(which)
      ensures Table(which).rows == Saved(old(Table(which).rows), id, name, complete)
    {
      if name == None {
        if complete {
          var _ := Table(which).Delete(id);
        }
      } else {
        Table(which).Upsert(id, name.value);
      }
    }

    /** Both fields of one entry. */
    method WriteEntry(entry: NameEntry, complete: bool)
      requires Valid()
      modifies longnames, shortnames
      ensures longnames.rows == Saved(old(longnames.rows), entry.id, entry.names.long, complete)
      ensures shortnames.rows == Saved(old(shortnames.rows), entry.id, entry.names.short, complete)
    {
      hide Saved;
      WriteName(Long, entry.id, entry.names.long, complete);
      WriteName(Short, entry.id, entry.names.short, complete);
    }

    /** The loop of `_sync`; it stops early when an error is due after `failAfter` entries. */
    method WriteEntries(entries: seq<NameEntry>, complete: bool, failAfter: Option<nat>)
      requires Valid()
      modifies longnames, shortnames
      ensures failAfter.None? ==>
        && longnames.rows == SavedAll(old(longnames.rows), entries, Long, complete)
        && shortnames.rows == SavedAll(old(shortnames.rows), entries, Short, complete)
    {
      ghost var long0, short0 := longnames.rows, shortnames.rows;
      var i := 0;
      while i < |entries| && failAfter != Some(i)
        invariant i <= |entries|
        invariant longnames.rows == SavedAll(long0, entries[..i], Long, complete)
        invariant shortnames.rows == SavedAll(short0, entries[..i], Short, complete)
        decreases |entries| - i
      {
        SavedNext(long0, entries, i, Long, complete);
        SavedNext(short0, entries, i, Short, complete);
        hide SavedAll, Saved;
        WriteEntry(entries[i], complete);
        i := i + 1;
      }
      assert entries[..|entries|] == entries;
    }

    /** All entries of a state. */
    method WriteState(state: State, complete: bool, failAfter: Option<nat>)
      requires Valid()
      modifies longnames, shortnames
      ensures failAfter.None? ==>
        View() == Store(Applied(old(longnames.rows), state, Long, complete), Applied(old(shortnames.rows), state, Short, complete))
    {
      TupleIsApplied(longnames.rows, state, Long, complete);
      TupleIsApplied(shortnames.rows, state, Short, complete);
      hide SavedAll, Applied;
      WriteEntries(Tuple(state), complete, failAfter);
    }

    /** `_sync_name_tables_atomic`.  An error after `failAfter` entries rolls everything back. */
    method SyncAtomic(state: State, currentIds: set<string>, complete: bool, failAfter: Option<nat>)
      returns (ok: bool)
      requires Valid()
      modifies longnames, shortnames
      ensures ok == failAfter.None?
      ensures View() == if ok then SyncStore(old(View()), state, complete, currentIds) else old(View())
    {
      var savedLong, savedShort := longnames.rows, shortnames.rows;
      WriteState(state, complete, failAfter);
      if failAfter.Some? {
        longnames.rows, shortnames.rows := savedLong, savedShort;  // ROLLBACK
        return false;
      }
      if complete {
        var _ := longnames.DeleteStale(currentIds, chunkSize);
        var _ := shortnames.DeleteStale(currentIds, chunkSize);
      }
      return true;
    }

    /** `_prune_stale_name_rows_atomic`. */
    method PruneAtomic(currentIds: set<string>, fails: bool) returns (ok: bool)
      requires Valid()
      modifies longnames, shortnames
      ensures ok == !fails
      ensures View() == if ok then PruneStore(old(View()), currentIds) else old(View())
    {
      if fails {
        return false;
      }
      var _ := longnames.DeleteStale(currentIds, chunkSize);
      var _ := shortnames.DeleteStale(currentIds, chunkSize);
      return true;
    }

    /** `_name_table_matches_state`. */
    method TableMatches(which: Which, state: State, readFails: bool) returns (matches: bool)
      requires Valid()
      ensures matches == (!readFails && Matches(Table(which).rows, state, which))
    {
      var entries := Tuple(state);
      if readFails {
        return false;
      }
      var rows := Table(which).rows;
      var actual := Table(which).ReadForIds(state.Keys, chunkSize);
      for i := 0 to |entries|
        invariant forall k | 0 <= k < i :: EntryMatches(rows, entries[k], which)
      {
        var expected := entries[i].names.Get(which);
        assert entries[i] in entries;
        if expected == None {
          continue;
        }
        if entries[i].id !in actual {
          return false;
        }
        var value := actual[entries[i].id];
        if value == None || value == Some("") {
          return false;
        }
        if expected != value {
          return false;
        }
      }
      forall id | id in state && state[id].Get(which).Some?
        ensures id in rows && Clean(rows[id]) == state[id].Get(which)
      {
        assert NameEntry(id, state[id]) in entries;
      }
      return true;
    }

    static predicate EntryMatches(rows: Rows, e: NameEntry, which: Which) {
      e.names.Get(which).Some? ==> e.id in rows && Clean(rows[e.id]) == e.names.Get(which)
    }

    /** `_name_tables_match_state`. */
    method TablesMatch(state: State, faults: Faults) returns (matches: bool)
      requires Valid()
      ensures matches == StoreMatches(View(), state, faults)
    {
      if state == map[] {
        return true;
      }
      matches := TableMatches(Long, state, faults.readLong);
      if matches {
        matches := TableMatches(Short, state, faults.readShort);
      }
    }

    /** `sync_name_tables_if_changed`; `nodes` is None when the argument is not a dictionary. */
    method SyncIfChanged(nodes: Option<seq<Node>>, previous: Option<State>, faults: Faults)
      returns (result: Option<State>)
      requires Valid()
      modifies longnames, shortnames
      ensures Outcome(View(), result) == SyncCall(old(View()), nodes, previous, faults)
    {
      if nodes.None? {
        return previous;
      }
      if nodes.value == [] {
        return previous;
      }
      var entries, currentIds, complete := CollectNodeNameSnapshot(nodes.value);
      var current := FromTuple(entries);
      TupleRoundTrip(Collect(nodes.value).state);
      if !complete && previous.Some? {
        current := Carry(current, previous.value);
      }
      if !complete && current == map[] {
        return previous;
      }
      if previous.Some? && current == previous.value {
        if complete {
          var pruned := PruneAtomic(currentIds, faults.prune);
          if !pruned {
            return previous;
          }
        }
        var matches := TablesMatch(current, faults);
        if !matches {
          var synced := SyncAtomic(current, currentIds, complete, faults.sync);
          if !synced {
            return previous;
          }
        }
        return Some(current);
      }
      var synced := SyncAtomic(current, currentIds, complete, faults.sync);
      if synced {
        return Some(current);
      }
      return previous;
    }
  }
}
