/**
 The live message_map as the queue uses it: every stored mapping is followed by a prune to the
 newest `keep` rows, "newest" meaning highest rowid.
 */
module MessageWindow {
  import opened Wrappers

  datatype Mapping = Mapping(meshtasticId: string, room: string, text: string, meshnet: Option<string>)

  datatype Stored = Stored(rowid: nat, event: string, mapping: Mapping)

  /** The table in rowid order, the order in which SQLite keeps it. */
  type Rows = seq<Stored>

  /** Where the row of `event` is; |rows| when there is none. */
  function IndexOf(rows: Rows, event: string): (i: nat)
    ensures i <= |rows|
    ensures i < |rows| ==> rows[i].event == event
    ensures forall j | 0 <= j < i :: rows[j].event != event
  {
    if rows == [] || rows[0].event == event then 0 else 1 + IndexOf(rows[1..], event)
  }

  /** SQLite gives a new row the highest rowid plus one. */
  function NextRowid(rows: Rows): nat {
    if rows == [] then 1 else rows[|rows| - 1].rowid + 1
  }

  /** INSERT ... ON CONFLICT(matrix_event_id) DO UPDATE. */
  function Upsert(rows: Rows, event: string, mapping: Mapping): Rows {
    var i := IndexOf(rows, event);
    if i < |rows| then rows[i := rows[i].(mapping := mapping)]
    else rows + [Stored(NextRowid(rows), event, mapping)]
  }

  /** DELETE the `count` rows with the lowest rowids. */
  function DeleteOldest(rows: Rows, count: nat): Rows {
    if count < |rows| then rows[count..] else []
  }

  class MessageMapTable {
    var rows: Rows

    constructor ()
      ensures rows == []
    {
      rows := [];
    }

    /** `_store_message_map_core`.  The mapping is stored; every row keeps its place and age, rows of
        other events do not change, and there is a new row only for an event that had none. */
    method Store(event: string, mapping: Mapping)
      modifies this
      ensures rows == Upsert(old(rows), event, mapping)
      ensures exists i :: 0 <= i < |rows| && rows[i].event == event && rows[i].mapping == mapping
      ensures |rows| == |old(rows)| + (if Present(old(rows), event) then 0 else 1)
      ensures forall i | 0 <= i < |old(rows)| ::
        && rows[i].rowid == old(rows)[i].rowid && rows[i].event == old(rows)[i].event
        && (rows[i].event != event ==> rows[i] == old(rows)[i])
    {
      PresentIffFound(rows, event);
      ghost var i := IndexOf(rows, event);
      rows := Upsert(rows, event, mapping);
      assert rows[i].event == event && rows[i].mapping == mapping;
    }

    /** `_prune_message_map_core`: afterwards the newest `keep` rows are left, all if there are fewer. */
    method Prune(keep: int) returns (deleted: nat)
      modifies this
      ensures keep >= 0 ==> |old(rows)| == deleted + |rows| && rows == old(rows)[deleted..]
      ensures keep >= 0 ==> |rows| == if |old(rows)| < keep then |old(rows)| else keep
      ensures rows == Newest(old(rows), keep)
    {
      var total := |rows|;
      if total > keep {
        var toDelete := total - keep;
        rows := DeleteOldest(rows, toDelete);
        return toDelete;
      }
      return 0;
    }

    /** `_handle_message_mapping`.  Either transaction may fail, and its error is swallowed. */
    method HandleMapping(id: string, info: MappingInfo, storeFails: bool, pruneFails: bool)
      modifies this
      ensures rows == HandleInfo(old(rows), id, info, storeFails, pruneFails)
    {
      if Given(info.event) && Given(info.room) && Given(info.text) {
        if !storeFails {
          Store(info.event.value, Mapping(id, info.room.value, info.text.value, info.meshnet));
        }
        if info.keep > 0 && !pruneFails {
          var _ := Prune(info.keep);
        }
      }
    }
  }

  /** The last `keep` rows. */
  function Newest(rows: Rows, keep: int): Rows {
    if |rows| <= keep then rows else if keep <= 0 then [] else rows[|rows| - keep..]
  }

  datatype Op = Op(event: string, mapping: Mapping)

  function Handle(rows: Rows, op: Op, keep: int): Rows {
    var stored := Upsert(rows, op.event, op.mapping);
    if keep > 0 then Newest(stored, keep) else stored
  }

  /** The mapping information of a queued message. */
  datatype MappingInfo = MappingInfo(event: Option<string>, room: Option<string>, text: Option<string>,
                                     meshnet: Option<string>, keep: int)

  predicate Given(value: Option<string>) {
    value.Some? && value.value != ""
  }

  function HandleInfo(rows: Rows, id: string, info: MappingInfo, storeFails: bool, pruneFails: bool): Rows {
    if !Given(info.event) || !Given(info.room) || !Given(info.text) then rows
    else
      var mapping := Mapping(id, info.room.value, info.text.value, info.meshnet);
      var stored := if storeFails then rows else Upsert(rows, info.event.value, mapping);
      if info.keep > 0 && !pruneFails then Newest(stored, info.keep) else stored
  }

  // ---------- the window ----------

  /** Rowids rise, and no event has two rows. */
  ghost predicate Rising(rows: Rows) {
    forall i, j | 0 <= i < j < |rows| :: rows[i].rowid < rows[j].rowid && rows[i].event != rows[j].event
  }

  lemma UpsertRises(rows: Rows, event: string, mapping: Mapping)
    requires Rising(rows)
    ensures var i, stored := IndexOf(rows, event), Upsert(rows, event, mapping);
      && Rising(stored) && i < |stored| && stored[i].event == event
      && |stored| == |rows| + (if i < |rows| then 0 else 1)
  {
  }

  lemma NewestRises(rows: Rows, keep: int)
    requires Rising(rows)
    ensures Rising(Newest(rows, keep)) && (keep > 0 ==> Window(Newest(rows, keep), keep))
  {
  }

  /** Whatever is missing and whatever fails, rowids keep rising; and one complete mapping without
      an error brings the table back to its limit, with that mapping in it. */
  lemma FailuresHeal(rows: Rows, id: string, info: MappingInfo, storeFails: bool, pruneFails: bool)
    requires Rising(rows)
    ensures var after := HandleInfo(rows, id, info, storeFails, pruneFails);
      && Rising(after)
      && (Given(info.event) && Given(info.room) && Given(info.text) && info.keep > 0 && !storeFails && !pruneFails ==>
            && Window(after, info.keep)
            && after == Handle(rows, Op(info.event.value, Mapping(id, info.room.value, info.text.value, info.meshnet)), info.keep)
            && (!Present(rows, info.event.value) || |rows| <= info.keep ==> Present(after, info.event.value)))
  {
    if Given(info.event) && Given(info.room) && Given(info.text) {
      var event := info.event.value;
      var mapping := Mapping(id, info.room.value, info.text.value, info.meshnet);
      PresentIffFound(rows, event);
      UpsertRises(rows, event, mapping);
      NewestRises(rows, info.keep);
      NewestRises(Upsert(rows, event, mapping), info.keep);
      var i, stored := IndexOf(rows, event), Upsert(rows, event, mapping);
      var after := Newest(stored, info.keep);
      if info.keep > 0 && (i == |rows| || |rows| <= info.keep) {
        assert after[i - (|stored| - |after|)] == stored[i];
      }
      hide Rising, IndexOf, Upsert;
    }
  }

  /** The mapping of `event` is stored: in its row, or else in a new row at the end. */
  ghost predicate IsStored(rows: Rows, event: string, mapping: Mapping, after: Rows) {
    if Present(rows, event) then
      && |after| == |rows|
      && forall i | 0 <= i < |rows| ::
           after[i] == if rows[i].event == event then Stored(rows[i].rowid, event, mapping) else rows[i]
    else
      && |after| == |rows| + 1 && after[..|rows|] == rows
      && after[|rows|].event == event && after[|rows|].mapping == mapping
      && (rows != [] ==> after[|rows|].rowid > rows[|rows| - 1].rowid)
  }

  lemma UpsertStores(rows: Rows, event: string, mapping: Mapping)
    requires Rising(rows)
    ensures IsStored(rows, event, mapping, Upsert(rows, event, mapping))
  {
    PresentIffFound(rows, event);
    var i := IndexOf(rows, event);
    if i < |rows| {
      assert forall j | 0 <= j < |rows| && j != i :: rows[j].event != event;
    }
  }

  /** `stored` is the table between the two transactions, and `after` the one behind them. */
  ghost predicate HandledVia(rows: Rows, id: string, info: MappingInfo, storeFails: bool, pruneFails: bool,
                             stored: Rows, after: Rows)
  {
    && (if storeFails then stored == rows
        else
          && info.event.Some? && info.room.Some? && info.text.Some?
          && IsStored(rows, info.event.value, Mapping(id, info.room.value, info.text.value, info.meshnet), stored))
    && (if info.keep <= 0 || pruneFails || |stored| <= info.keep then after == stored
        else after == stored[|stored| - info.keep..])
  }

  /** Everything one mapping does, whatever its limit and whatever fails.  Without event id, room or
      text nothing happens.  Otherwise the mapping is stored unless that transaction fails; then,
      if the limit is positive and the second transaction does not fail, the newest rows up to the
      limit remain, and in all other cases every row remains. */
  lemma HandlingIsExact(rows: Rows, id: string, info: MappingInfo, storeFails: bool, pruneFails: bool)
    requires Rising(rows)
    ensures var after := HandleInfo(rows, id, info, storeFails, pruneFails);
      if info.event.None? || info.event.value == "" || info.room.None? || info.room.value == ""
         || info.text.None? || info.text.value == "" then after == rows
      else exists stored: Rows :: HandledVia(rows, id, info, storeFails, pruneFails, stored, after)
  {
    if Given(info.event) && Given(info.room) && Given(info.text) {
      var mapping := Mapping(id, info.room.value, info.text.value, info.meshnet);
      UpsertStores(rows, info.event.value, mapping);
      var stored := if storeFails then rows else Upsert(rows, info.event.value, mapping);
      hide Upsert, IsStored, Rising;
      assert HandledVia(rows, id, info, storeFails, pruneFails, stored, HandleInfo(rows, id, info, storeFails, pruneFails));
    }
  }

  /** So with a limit of zero or less, or a failing prune, no row ever leaves, and a mapping that was
      stored is there. */
  lemma NothingLeaves(rows: Rows, id: string, info: MappingInfo, storeFails: bool, pruneFails: bool, i: nat)
    requires Rising(rows) && (info.keep <= 0 || pruneFails) && i < |rows|
    ensures var after := HandleInfo(rows, id, info, storeFails, pruneFails);
      && i < |after| && after[i].rowid == rows[i].rowid && after[i].event == rows[i].event
      && (storeFails || Some(rows[i].event) != info.event ==> after[i] == rows[i])
  {
    HandlingIsExact(rows, id, info, storeFails, pruneFails);
  }

  ghost predicate Window(rows: Rows, keep: nat) {
    |rows| <= keep && Rising(rows)
  }

  ghost predicate Present(rows: Rows, event: string) {
    exists i :: 0 <= i < |rows| && rows[i].event == event
  }

  lemma PresentIffFound(rows: Rows, event: string)
    ensures Present(rows, event) <==> IndexOf(rows, event) < |rows|
  {
    var i := IndexOf(rows, event);
    if i < |rows| {
      assert rows[i].event == event;
    }
  }

  /** One mapping: the table stays a window, the mapping is in it, an event already present keeps
      its place and evicts nothing, and a new one evicts at most the oldest row. */
  lemma HandleSlides(rows: Rows, op: Op, keep: nat)
    requires keep >= 1 && Window(rows, keep)
    ensures var after := Handle(rows, op, keep);
      && Window(after, keep)
      && (exists i :: 0 <= i < |after| && after[i].event == op.event && after[i].mapping == op.mapping)
      && (if Present(rows, op.event) then
            && |after| == |rows|
            && forall i | 0 <= i < |rows| ::
                 after[i] == if rows[i].event == op.event then rows[i].(mapping := op.mapping) else rows[i]
          else
            after == (if |rows| == keep then rows[1..] else rows) + [Stored(NextRowid(rows), op.event, op.mapping)])
  {
    var i := IndexOf(rows, op.event);
    var stored := Upsert(rows, op.event, op.mapping);
    if i < |rows| {
      assert Present(rows, op.event) by { assert rows[i].event == op.event; }
      assert Handle(rows, op, keep) == stored && stored[i].mapping == op.mapping;
    } else {
      assert !Present(rows, op.event);
      var after := Handle(rows, op, keep);
      assert after[|after| - 1] == Stored(NextRowid(rows), op.event, op.mapping);
    }
  }

  /** The identity of an inserted row, for the log of all insertions of a run. */
  datatype Key = Key(rowid: nat, event: string)

  function KeyOf(row: Stored): Key {
    Key(row.rowid, row.event)
  }

  /** The rows are the last entries of the log. */
  ghost predicate EndOf(log: seq<Key>, rows: Rows) {
    |rows| <= |log| && forall i | 0 <= i < |rows| :: KeyOf(rows[i]) == log[|log| - |rows| + i]
  }

  datatype Run = Run(rows: Rows, log: seq<Key>)

  function StepRun(r: Run, op: Op, keep: nat): Run {
    Run(Handle(r.rows, op, keep),
        if IndexOf(r.rows, op.event) < |r.rows| then r.log
        else r.log + [KeyOf(Stored(NextRowid(r.rows), op.event, op.mapping))])
  }

  /** Handle the operations one after another; the log grows with every row that is inserted. */
  function RunOps(r: Run, ops: seq<Op>, keep: nat): Run {
    if ops == [] then r else StepRun(RunOps(r, ops[..|ops| - 1], keep), ops[|ops| - 1], keep)
  }

  /** The table is the end of the log of insertions, as long as `keep` allows, and rowids rise
      along the whole log. */
  ghost predicate SlidingWindow(r: Run, keep: nat) {
    && Window(r.rows, keep)
    && |r.rows| == (if |r.log| < keep then |r.log| else keep)
    && EndOf(r.log, r.rows)
    && (forall i, j | 0 <= i < j < |r.log| :: r.log[i].rowid < r.log[j].rowid)
  }

  /** Appending to the end of a log, dropping its first element when it is full. */
  lemma EndGrows(rows: Rows, log: seq<Key>, full: bool, row: Stored)
    requires EndOf(log, rows) && (full ==> rows != [])
    ensures EndOf(log + [KeyOf(row)], (if full then rows[1..] else rows) + [row])
  {
  }

  lemma InsertionSlides(r: Run, op: Op, keep: nat)
    requires keep >= 1 && SlidingWindow(r, keep) && !Present(r.rows, op.event)
    ensures SlidingWindow(StepRun(r, op, keep), keep)
  {
    HandleSlides(r.rows, op, keep);
    PresentIffFound(r.rows, op.event);
    EndGrows(r.rows, r.log, |r.rows| == keep, Stored(NextRowid(r.rows), op.event, op.mapping));
    assert r.log != [] ==> KeyOf(r.rows[|r.rows| - 1]) == r.log[|r.log| - 1];
    hide Handle, Present, IndexOf, Window, EndOf;
  }

  lemma StepSlides(r: Run, op: Op, keep: nat)
    requires keep >= 1 && SlidingWindow(r, keep)
    ensures SlidingWindow(StepRun(r, op, keep), keep)
  {
    if Present(r.rows, op.event) {
      HandleSlides(r.rows, op, keep);
    } else {
      InsertionSlides(r, op, keep);
    }
  }

  /** Over any run the table is the window on the last `keep` insertions. */
  lemma {:induction false} RunSlides(r: Run, ops: seq<Op>, keep: nat)
    requires keep >= 1 && SlidingWindow(r, keep)
    ensures SlidingWindow(RunOps(r, ops, keep), keep)
    ensures r.log <= RunOps(r, ops, keep).log && |RunOps(r, ops, keep).log| <= |r.log| + |ops|
  {
    if ops != [] {
      RunSlides(r, ops[..|ops| - 1], keep);
      StepSlides(RunOps(r, ops[..|ops| - 1], keep), ops[|ops| - 1], keep);
    }
  }

  /** So a row that is inserted outlives the next `keep` - 1 operations, whatever they are. */
  lemma InsertionSurvives(r: Run, op: Op, later: seq<Op>, keep: nat)
    requires keep >= 1 && SlidingWindow(r, keep)
    requires !Present(r.rows, op.event) && |later| < keep
    ensures Present(RunOps(StepRun(r, op, keep), later, keep).rows, op.event)
  {
    var r1 := StepRun(r, op, keep);
    StepSlides(r, op, keep);
    RunSlides(r1, later, keep);
    var r2 := RunOps(r1, later, keep);
    PresentIffFound(r.rows, op.event);
    var p := |r.log|;
    assert r2.log[p] == r1.log[p];
    var q := p - (|r2.log| - |r2.rows|);
    assert KeyOf(r2.rows[q]) == r2.log[p];
  }

  /** The mapping given to `event` by the last operation that names it. */
  function LastMapping(ops: seq<Op>, event: string): Option<Mapping> {
    if ops == [] then None
    else if ops[|ops| - 1].event == event then Some(ops[|ops| - 1].mapping)
    else LastMapping(ops[..|ops| - 1], event)
  }

  /** A row after the operation has the operation's mapping, or was there before. */
  lemma RowsComeFrom(rows: Rows, op: Op, keep: nat, i: nat) returns (j: nat)
    requires keep >= 1 && Window(rows, keep) && i < |Handle(rows, op, keep)|
    ensures var row := Handle(rows, op, keep)[i];
      if row.event == op.event then row.mapping == op.mapping else j < |rows| && rows[j] == row
  {
    HandleSlides(rows, op, keep);
    j := if !Present(rows, op.event) && |rows| == keep then i + 1 else i;
    hide Handle, Window;
  }

  /** Whatever row is still there, its mapping is the last one stored for its event. */
  lemma {:induction false} MappingsAreLatest(r: Run, ops: seq<Op>, keep: nat, i: nat)
    requires keep >= 1 && SlidingWindow(r, keep)
    requires i < |RunOps(r, ops, keep).rows|
    ensures var row := RunOps(r, ops, keep).rows[i];
      LastMapping(ops, row.event) == None || LastMapping(ops, row.event) == Some(row.mapping)
  {
    if ops != [] {
      var before, op := RunOps(r, ops[..|ops| - 1], keep), ops[|ops| - 1];
      RunSlides(r, ops[..|ops| - 1], keep);
      assert RunOps(r, ops, keep).rows == Handle(before.rows, op, keep);
      var j := RowsComeFrom(before.rows, op, keep, i);
      if RunOps(r, ops, keep).rows[i].event != op.event {
        MappingsAreLatest(r, ops[..|ops| - 1], keep, j);
      }
      hide Handle, SlidingWindow, IndexOf;
    }
  }

  /** Storing a mapping again does not make its row newer: with room for two, after a, b, a, c
      the row of a is gone although b was stored before it. */
  lemma StoringAgainKeepsAge(m: Mapping)
    ensures var ops := [Op("a", m), Op("b", m), Op("a", m), Op("c", m)];
      RunOps(Run([], []), ops, 2).rows == [Stored(2, "b", m), Stored(3, "c", m)]
  {
    var a, b, c := Op("a", m), Op("b", m), Op("c", m);
    var r0 := Run([], []);
    FirstRow(a);
    SecondRow(m);
    SameRow(m);
    ThirdRow(m);
    hide Handle;
    assert RunOps(r0, [], 2) == r0;
    OneMoreOp(r0, [], a, 2);
    OneMoreOp(r0, [a], b, 2);
    OneMoreOp(r0, [a, b], a, 2);
    OneMoreOp(r0, [a, b, a], c, 2);
    hide RunOps;
    assert [] + [a] == [a] && [a] + [b] == [a, b] && [a, b] + [a] == [a, b, a] && [a, b, a] + [c] == [a, b, a, c];
  }

  lemma OneMoreOp(r: Run, ops: seq<Op>, op: Op, keep: nat)
    ensures RunOps(r, ops + [op], keep).rows == Handle(RunOps(r, ops, keep).rows, op, keep)
  {
    assert (ops + [op])[..|ops + [op]| - 1] == ops;
  }

  lemma FirstRow(op: Op)
    ensures Handle([], op, 2) == [Stored(1, op.event, op.mapping)]
  {
  }

  lemma SecondRow(m: Mapping)
    ensures Handle([Stored(1, "a", m)], Op("b", m), 2) == [Stored(1, "a", m), Stored(2, "b", m)]
  {
  }

  lemma SameRow(m: Mapping)
    ensures var rows := [Stored(1, "a", m), Stored(2, "b", m)]; Handle(rows, Op("a", m), 2) == rows
  {
  }

  lemma ThirdRow(m: Mapping)
    ensures Handle([Stored(1, "a", m), Stored(2, "b", m)], Op("c", m), 2) == [Stored(2, "b", m), Stored(3, "c", m)]
  {
  }
}
