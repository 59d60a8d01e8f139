/**
 `sync_name_tables_if_changed`: what one call does to the two names tables and which state it
 hands back for the next call, when any of its transactions may fail and roll back.
 */
module NameSync {
  import opened Wrappers
  import opened NodeNames
  import opened SnapshotCollector
  import opened NameTables

  datatype Store = Store(long: Rows, short: Rows) {
    function Get(which: Which): Rows {
      if which.Long? then long else short
    }
  }

  /** Write the state's names; a missing name clears its row only when the snapshot is complete. */
  function Applied(rows: Rows, state: State, which: Which, complete: bool): Rows {
    map id | id in rows.Keys + state.Keys
             && (id in state && state[id].Get(which) == None ==> !complete && id in rows)
           :: if id in state && state[id].Get(which).Some? then state[id].Get(which) else rows[id]
  }

  function Pruned(rows: Rows, ids: set<string>): Rows {
    rows - (rows.Keys - ids)
  }

  function Synced(rows: Rows, state: State, which: Which, complete: bool, ids: set<string>): Rows {
    var applied := Applied(rows, state, which, complete);
    if complete then Pruned(applied, ids) else applied
  }

  function SyncStore(s: Store, state: State, complete: bool, ids: set<string>): Store {
    Store(Synced(s.long, state, Long, complete, ids), Synced(s.short, state, Short, complete, ids))
  }

  function PruneStore(s: Store, ids: set<string>): Store {
    Store(Pruned(s.long, ids), Pruned(s.short, ids))
  }

  /** `_name_table_matches_state`; a name the state does not know is not checked. */
  predicate Matches(rows: Rows, state: State, which: Which) {
    forall id | id in state && state[id].Get(which).Some? ::
      id in rows && Clean(rows[id]) == state[id].Get(which)
  }

  /** Which database operations of a call fail; a failing sync stops after so many entries. */
  datatype Faults = Faults(prune: bool, readLong: bool, readShort: bool, sync: Option<nat>)

  const NO_FAULTS := Faults(false, false, false, None)

  predicate StoreMatches(s: Store, state: State, faults: Faults) {
    state == map[]
    || (!faults.readLong && Matches(s.long, state, Long) && !faults.readShort && Matches(s.short, state, Short))
  }

  /** An incomplete snapshot keeps what the previous state knew. */
  function Carry(current: State, previous: State): State {
    map id | id in current.Keys + previous.Keys ::
      if id !in current then previous[id]
      else if id !in previous then current[id]
      else Names(if current[id].long.Some? then current[id].long else previous[id].long,
                 if current[id].short.Some? then current[id].short else previous[id].short)
  }

  function Expected(nodes: seq<Node>, previous: Option<State>): State {
    var c := Collect(nodes);
    if !c.complete && previous.Some? then Carry(c.state, previous.value) else c.state
  }

  /** The call returns before it touches the database. */
  predicate Skipped(nodes: Option<seq<Node>>, previous: Option<State>) {
    || nodes.None?  // not a dictionary
    || nodes.value == []
    || (!Collect(nodes.value).complete && Expected(nodes.value, previous) == map[])
  }

  datatype Outcome = Outcome(store: Store, state: Option<State>)

  function SyncCall(s: Store, nodes: Option<seq<Node>>, previous: Option<State>, faults: Faults): Outcome {
    if Skipped(nodes, previous) then Outcome(s, previous)
    else
      var c := Collect(nodes.value);
      var current := Expected(nodes.value, previous);
      if previous == Some(current) then
        if c.complete && faults.prune then Outcome(s, previous)
        else
          var pruned := if c.complete then PruneStore(s, c.ids) else s;
          if StoreMatches(pruned, current, faults) then Outcome(pruned, Some(current))
          else if faults.sync.Some? then Outcome(pruned, previous)
          else Outcome(SyncStore(pruned, current, c.complete, c.ids), Some(current))
      else if faults.sync.Some? then Outcome(s, previous)
      else Outcome(SyncStore(s, current, c.complete, c.ids), Some(current))
  }

  // ---------- the state handed back agrees with the tables ----------

  /** Every name the state knows is the row of its table. */
  ghost predicate Agrees(s: Store, state: Option<State>) {
    state.Some? ==> forall id, which | id in state.value && state.value[id].Get(which).Some? ::
      id in s.Get(which) && s.Get(which)[id] == state.value[id].Get(which)
  }

  /** The same as the program checks it. */
  ghost predicate Matching(s: Store, state: Option<State>) {
    state.Some? ==> Matches(s.long, state.value, Long) && Matches(s.short, state.value, Short)
  }

  lemma AgreesIffMatching(s: Store, state: Option<State>)
    requires Proper(state)
    ensures Agrees(s, state) <==> Matching(s, state)
  {
    if state.Some? && Matching(s, state) {
      forall id, which | id in state.value && state.value[id].Get(which).Some?
        ensures id in s.Get(which) && s.Get(which)[id] == state.value[id].Get(which)
      {
        if which.Long? {} else {}
      }
    }
    if state.Some? && Agrees(s, state) {
      forall id | id in state.value && state.value[id].long.Some?
        ensures id in s.long && Clean(s.long[id]) == state.value[id].long
      {
        assert state.value[id].Get(Long) != Some("") && s.Get(Long) == s.long;
      }
      forall id | id in state.value && state.value[id].short.Some?
        ensures id in s.short && Clean(s.short[id]) == state.value[id].short
      {
        assert state.value[id].Get(Short) != Some("") && s.Get(Short) == s.short;
      }
    }
  }

  /** Names are never empty strings. */
  ghost predicate Proper(state: Option<State>) {
    state.Some? ==> forall id, which | id in state.value :: state.value[id].Get(which) != Some("")
  }

  lemma CollectedStateIsProper(nodes: seq<Node>)
    ensures Proper(Some(Collect(nodes).state))
  {
    CollectAccounts(nodes);
    hide Collect;
    forall id, which | id in Collect(nodes).state ensures Collect(nodes).state[id].Get(which) != Some("") {
      var name := Collect(nodes).state[id].Get(which);
      if name.Some? {
        var n :| n in nodes && Gives(n, which, id, name.value);
      }
    }
  }

  lemma ExpectedIsProper(nodes: seq<Node>, previous: Option<State>)
    requires Proper(previous)
    ensures Proper(Some(Expected(nodes, previous)))
  {
    CollectedStateIsProper(nodes);
    hide Collect;
    var e := Expected(nodes, previous);
    forall id, which | id in e ensures e[id].Get(which) != Some("") {
      assert id in Collect(nodes).state ==> Collect(nodes).state[id].Get(which) != Some("");
      if previous.Some? && id in previous.value { assert previous.value[id].Get(which) != Some(""); }
    }
  }

  lemma CompleteStateIds(nodes: seq<Node>)
    requires Collect(nodes).complete
    ensures Collect(nodes).state.Keys == Collect(nodes).ids
  {
    CollectAccounts(nodes);
    CompleteIff(nodes);
  }

  lemma SyncedMatches(rows: Rows, state: State, which: Which, complete: bool, ids: set<string>)
    requires complete ==> state.Keys <= ids
    requires forall id | id in state :: state[id].Get(which) != Some("")
    ensures Matches(Synced(rows, state, which, complete, ids), state, which)
  {
  }

  lemma PrunedMatches(rows: Rows, state: State, which: Which, ids: set<string>)
    requires state.Keys <= ids && Matches(rows, state, which)
    ensures Matches(Pruned(rows, ids), state, which)
  {
  }

  lemma SyncStoreMatches(s: Store, state: State, complete: bool, ids: set<string>)
    requires complete ==> state.Keys <= ids
    requires Proper(Some(state))
    ensures Matching(SyncStore(s, state, complete, ids), Some(state))
  {
    SyncedMatches(s.long, state, Long, complete, ids);
    SyncedMatches(s.short, state, Short, complete, ids);
  }

  lemma CallKeepsMatching(s: Store, nodes: Option<seq<Node>>, previous: Option<State>, faults: Faults)
    requires Matching(s, previous) && Proper(previous)
    ensures var o := SyncCall(s, nodes, previous, faults); Matching(o.store, o.state) && Proper(o.state)
  {
    if !Skipped(nodes, previous) {
      var c := Collect(nodes.value);
      var current := Expected(nodes.value, previous);
      ExpectedIsProper(nodes.value, previous);
      if c.complete { CompleteStateIds(nodes.value); }
      hide Collect, Matches, Synced, Pruned, Proper;
      if previous == Some(current) {
        var pruned := if c.complete then PruneStore(s, c.ids) else s;
        if c.complete {
          PrunedMatches(s.long, current, Long, c.ids);
          PrunedMatches(s.short, current, Short, c.ids);
        }
        SyncStoreMatches(pruned, current, c.complete, c.ids);
      } else {
        SyncStoreMatches(s, current, c.complete, c.ids);
      }
    }
  }

  /** One call keeps agreement, whatever the snapshot and whatever fails. */
  lemma CallKeepsAgreement(s: Store, nodes: Option<seq<Node>>, previous: Option<State>, faults: Faults)
    requires Agrees(s, previous) && Proper(previous)
    ensures var o := SyncCall(s, nodes, previous, faults); Agrees(o.store, o.state) && Proper(o.state)
  {
    AgreesIffMatching(s, previous);
    CallKeepsMatching(s, nodes, previous, faults);
    var o := SyncCall(s, nodes, previous, faults);
    hide SyncCall;
    AgreesIffMatching(o.store, o.state);
  }

  lemma CallRestores(s: Store, nodes: seq<Node>, previous: Option<State>)
    requires !Skipped(Some(nodes), previous) && Proper(previous)
    ensures var o := SyncCall(s, Some(nodes), previous, NO_FAULTS);
      o.state == Some(Expected(nodes, previous)) && Matching(o.store, o.state)
  {
    var c := Collect(nodes);
    var current := Expected(nodes, previous);
    ExpectedIsProper(nodes, previous);
    if c.complete { CompleteStateIds(nodes); }
    hide Collect, Synced, Pruned, Proper;
    if previous == Some(current) {
      var pruned := if c.complete then PruneStore(s, c.ids) else s;
      SyncStoreMatches(pruned, current, c.complete, c.ids);
    } else {
      SyncStoreMatches(s, current, c.complete, c.ids);
    }
  }

  /** A call reaches the database for every snapshot that is not empty, unless it is incomplete and
      neither it nor the previous state knows any node; any other call hands back what it was given. */
  lemma ReachesUnlessEmpty(s: Store, nodes: Option<seq<Node>>, previous: Option<State>, faults: Faults)
    ensures !Skipped(nodes, previous) <==>
      && nodes.Some? && nodes.value != []
      && (Collect(nodes.value).complete || Collect(nodes.value).state != map[] || (previous.Some? && previous.value != map[]))
    ensures Skipped(nodes, previous) ==> SyncCall(s, nodes, previous, faults) == Outcome(s, previous)
  {
    hide Collect;
    if nodes.Some? && previous.Some? {
      var c := Collect(nodes.value);
      var carried := Carry(c.state, previous.value);
      assert carried.Keys == c.state.Keys + previous.value.Keys;
      assert carried == map[] ==> carried.Keys == {};
      if id :| id in c.state { assert id in carried; }
      if id :| id in previous.value { assert id in carried; }
    }
  }

  /** A call that reaches the database and meets no error repairs the tables: whatever they held
      and whatever the previous state was, they agree with the state handed back.  That state has
      the names the snapshot reports, and of the names only the previous state knew an incomplete
      snapshot keeps all, a complete one none. */
  lemma CallRepairs(s: Store, nodes: seq<Node>, previous: Option<State>)
    requires nodes != [] && Proper(previous)
    requires Collect(nodes).complete || Collect(nodes).state != map[] || (previous.Some? && previous.value != map[])
    ensures var o, c := SyncCall(s, Some(nodes), previous, NO_FAULTS), Collect(nodes);
      && o.state.Some? && Agrees(o.store, o.state)
      && (forall id :: id in o.state.value <==> id in c.state || (!c.complete && previous.Some? && id in previous.value))
      && (forall id, which: Which :: id in o.state.value ==>
            o.state.value[id].Get(which) ==
              if Known(Some(c.state), which, id).Some? then Known(Some(c.state), which, id)
              else if c.complete then None else Known(previous, which, id))
  {
    ReachesUnlessEmpty(s, Some(nodes), previous, NO_FAULTS);
    CallRestores(s, nodes, previous);
    ExpectedIsProper(nodes, previous);
    var o := SyncCall(s, Some(nodes), previous, NO_FAULTS);
    hide SyncCall, Collect;
    AgreesIffMatching(o.store, o.state);
    forall id, which: Which | id in o.state.value
      ensures o.state.value[id].Get(which) ==
        if Known(Some(Collect(nodes).state), which, id).Some? then Known(Some(Collect(nodes).state), which, id)
        else if Collect(nodes).complete then None else Known(previous, which, id)
    {
      if which.Long? {} else {}
    }
  }

  /** After an error-free call the tables hold every name of the snapshot; of the names only the
      previous state knew, an incomplete snapshot leaves all in force, a complete one none. */
  lemma NewNamesArrive(s: Store, nodes: seq<Node>, previous: Option<State>, which: Which, id: string, v: string)
    requires nodes != [] && Proper(previous)
    requires Collect(nodes).complete || Collect(nodes).state != map[] || (previous.Some? && previous.value != map[])
    ensures var c := Collect(nodes);
            var row := Stored(SyncCall(s, Some(nodes), previous, NO_FAULTS).store, which, id);
            var before := Known(previous, which, id);
      && (Known(Some(c.state), which, id) == Some(v) ==> row == Some(v))
      && (Known(Some(c.state), which, id) == None && before == Some(v) && !c.complete ==> row == Some(v))
      && (id !in c.ids && c.complete ==> row == None)
  {
    CallRepairs(s, nodes, previous);
    ReachesUnlessEmpty(s, Some(nodes), previous, NO_FAULTS);
    if Collect(nodes).complete { CompleteStateIds(nodes); }
    hide Collect;
  }

  /** No call invents a row: each one is as before, or the name of the state handed back. */
  lemma RowsAreJustified(s: Store, nodes: Option<seq<Node>>, previous: Option<State>, faults: Faults, which: Which, id: string)
    ensures var o := SyncCall(s, nodes, previous, faults);
      id in o.store.Get(which) ==>
        || (id in s.Get(which) && o.store.Get(which)[id] == s.Get(which)[id])
        || (o.state.Some? && id in o.state.value && o.state.value[id].Get(which).Some?
            && o.store.Get(which)[id] == o.state.value[id].Get(which))
  {
    hide Collect;
  }

  /** A call whose sync fails writes nothing: it can only have deleted rows of absent nodes, and it
      hands back the previous state. */
  lemma FailedSyncWritesNothing(s: Store, nodes: Option<seq<Node>>, previous: Option<State>, faults: Faults, which: Which, id: string)
    requires faults.sync.Some?
    ensures var o := SyncCall(s, nodes, previous, faults);
      && o.state == previous
      && (id in o.store.Get(which) ==> id in s.Get(which) && o.store.Get(which)[id] == s.Get(which)[id])
      && (id in s.Get(which) && id !in o.store.Get(which) ==>
            nodes.Some? && Collect(nodes.value).complete && id !in Collect(nodes.value).ids)
  {
    hide Collect;
  }

  /** The name a state knows, and the name a table holds. */
  function Known(state: Option<State>, which: Which, id: string): Name {
    if state.Some? && id in state.value then state.value[id].Get(which) else None
  }

  function Stored(s: Store, which: Which, id: string): Name {
    if id in s.Get(which) then s.Get(which)[id] else None
  }

  datatype Call = Call(nodes: Option<seq<Node>>, faults: Faults)

  function RunCalls(s: Store, previous: Option<State>, calls: seq<Call>): Outcome
    decreases |calls|
  {
    if calls == [] then Outcome(s, previous)
    else
      var o := SyncCall(s, calls[0].nodes, previous, calls[0].faults);
      RunCalls(o.store, o.state, calls[1..])
  }

  /** Over any run of calls from a first start, each fed the state the last one handed back,
      every name of that state is the row of its table. */
  lemma {:induction false} RunsAgree(s: Store, previous: Option<State>, calls: seq<Call>)
    requires Agrees(s, previous) && Proper(previous)
    ensures var o := RunCalls(s, previous, calls); Agrees(o.store, o.state) && Proper(o.state)
    decreases |calls|
  {
    if calls != [] {
      CallKeepsAgreement(s, calls[0].nodes, previous, calls[0].faults);
      var o := SyncCall(s, calls[0].nodes, previous, calls[0].faults);
      RunsAgree(o.store, o.state, calls[1..]);
    }
  }

  // ---------- nothing is destroyed by a partial view ----------

  predicate Authoritative(nodes: Option<seq<Node>>) {
    nodes.Some? && nodes.value != [] && Collect(nodes.value).complete
  }

  /** Only a complete, non-empty snapshot deletes rows.  Any other call leaves every row in place,
      with its old value unless the new state names the node. */
  lemma PartialViewsDeleteNothing(s: Store, nodes: Option<seq<Node>>, previous: Option<State>, faults: Faults, which: Which, id: string)
    requires !Authoritative(nodes) && id in s.Get(which)
    ensures var o := SyncCall(s, nodes, previous, faults);
      && id in o.store.Get(which)
      && (o.store.Get(which)[id] == s.Get(which)[id]
          || (o.state.Some? && id in o.state.value && o.store.Get(which)[id] == o.state.value[id].Get(which)))
  {
    hide Collect;
  }

  /** The state handed back after such a call.  If the call is skipped or its sync fails, it is
      the previous state.  Otherwise it still has every id of the previous state, and in each field
      the name the snapshot reports, if it reports one, and else the name of the previous state. */
  lemma IncompleteStateForgetsNothing(s: Store, nodes: Option<seq<Node>>, previous: Option<State>, faults: Faults, which: Which, id: string)
    requires !Authoritative(nodes) && previous.Some? && id in previous.value
    ensures var o := SyncCall(s, nodes, previous, faults);
      && (Skipped(nodes, previous) || faults.sync.Some? ==> o.state == previous)
      && (!Skipped(nodes, previous) && faults.sync.None? ==>
            && o.state.Some? && id in o.state.value
            && var reported := Known(Some(Collect(nodes.value).state), which, id);
               o.state.value[id].Get(which) == if reported.Some? then reported else previous.value[id].Get(which))
  {
    hide Collect;
  }

  // ---------- complete snapshots and exact tables ----------

  /** The rows a state stands for: its known names, and nothing else. */
  function Exact(state: State, which: Which): Rows {
    map id | id in state && state[id].Get(which).Some? :: state[id].Get(which)
  }

  lemma SyncIsExact(s: Store, state: State, ids: set<string>, which: Which)
    requires state.Keys == ids
    ensures SyncStore(s, state, true, ids).Get(which) == Exact(state, which)
  {
  }

  /** Some row of a node whose name the state does not know is still in its table. */
  ghost predicate Leftover(s: Store, state: State) {
    exists which, id :: id in state && state[id].Get(which) == None && id in s.Get(which)
  }

  lemma PrunedIsExactIff(rows: Rows, state: State, which: Which)
    requires Matches(rows, state, which)
    ensures Pruned(rows, state.Keys) == Exact(state, which) <==>
      forall id :: id in state && state[id].Get(which) == None ==> id !in rows
  {
    var pruned := Pruned(rows, state.Keys);
    if forall id :: id in state && state[id].Get(which) == None ==> id !in rows {
      forall id | id in pruned ensures id in Exact(state, which) && pruned[id] == Exact(state, which)[id] {}
    } else {
      var id :| id in state && state[id].Get(which) == None && id in rows;
      assert id in pruned && id !in Exact(state, which);
    }
  }

  /** After an error-free complete snapshot the tables are exactly the state, except in one case,
      and then never: the state is unchanged, the tables already carry every name it knows,
      and a row is left of a node whose name has become unknown. */
  lemma ExactIff(s: Store, nodes: seq<Node>, previous: Option<State>)
    requires Authoritative(Some(nodes))
    ensures var o := SyncCall(s, Some(nodes), previous, NO_FAULTS);
            var state := Collect(nodes).state;
      (o.store == Store(Exact(state, Long), Exact(state, Short))) <==>
        !(previous == Some(state) && Agrees(s, previous) && Leftover(s, state))
  {
    var c := Collect(nodes);
    var state := c.state;
    CompleteStateIds(nodes);
    CollectedStateIsProper(nodes);
    AgreesIffMatching(s, Some(state));
    hide Collect, Agrees;
    if previous == Some(state) {
      var pruned := PruneStore(s, c.ids);
      PruneKeepsMatching(s.long, state, Long);
      PruneKeepsMatching(s.short, state, Short);
      hide Matches, Pruned, Synced, Exact, Leftover;
      if Agrees(s, previous) {
        PrunedIsExactIff(s.long, state, Long);
        PrunedIsExactIff(s.short, state, Short);
        LeftoverIff(s, state);
      } else {
        SyncIsExact(pruned, state, c.ids, Long);
        SyncIsExact(pruned, state, c.ids, Short);
      }
    } else {
      SyncIsExact(s, state, c.ids, Long);
      SyncIsExact(s, state, c.ids, Short);
    }
  }

  const NAMELESS: seq<Node> := [Entry("n", Missing, Str("s"))]

  /** The exception is reachable.  A first, incomplete snapshot reports node n with its short name
      only, so that an old long name stays; a second one, complete, reports the same: the state
      is unchanged, and the long name survives although the snapshot has none. */
  lemma OldNameSurvives(name: string)
    ensures var calls := [Call(Some(NAMELESS + [Malformed]), NO_FAULTS), Call(Some(NAMELESS), NO_FAULTS)];
            var o := RunCalls(Store(map["n" := Some(name)], map[]), None, calls);
      && Collect(NAMELESS).complete && o.state == Some(Collect(NAMELESS).state)
      && o.store.long == map["n" := Some(name)] && Exact(o.state.value, Long) == map[]
  {
    var state := map["n" := Names(None, Some("s"))];
    var n := Entry("n", Missing, Str("s"));
    assert NAMELESS[..0] == [] && (NAMELESS + [Malformed])[..1] == NAMELESS;
    assert Collect([]) == EMPTY;
    assert Collect(NAMELESS) == AddNode(EMPTY, n) == Snapshot(true, {"n"}, state, {});
    assert Collect(NAMELESS + [Malformed]) == Snapshot(false, {"n"}, state, {});
    var s0 := Store(map["n" := Some(name)], map[]);
    var s1 := Store(map["n" := Some(name)], map["n" := Some("s")]);
    assert SyncCall(s0, Some(NAMELESS + [Malformed]), None, NO_FAULTS) == Outcome(s1, Some(state));
    assert SyncCall(s1, Some(NAMELESS), Some(state), NO_FAULTS) == Outcome(s1, Some(state));
    var calls := [Call(Some(NAMELESS + [Malformed]), NO_FAULTS), Call(Some(NAMELESS), NO_FAULTS)];
    assert calls[1..] == [calls[1]] && calls[1..][1..] == [];
    hide SyncCall, Collect;
    assert RunCalls(s1, Some(state), []) == Outcome(s1, Some(state));
  }

  lemma PruneKeepsMatching(rows: Rows, state: State, which: Which)
    ensures Matches(Pruned(rows, state.Keys), state, which) <==> Matches(rows, state, which)
  {
  }

  lemma LeftoverIff(s: Store, state: State)
    ensures !Leftover(s, state) <==>
      && (forall id :: id in state && state[id].Get(Long) == None ==> id !in s.long)
      && (forall id :: id in state && state[id].Get(Short) == None ==> id !in s.short)
  {
    if which, id :| id in state && state[id].Get(which) == None && id in s.Get(which) {
      assert if which.Long? then id in s.long else id in s.short;
    }
    assert forall id :: id in s.long ==> id in s.Get(Long);
    assert forall id :: id in s.short ==> id in s.Get(Short);
  }
}
