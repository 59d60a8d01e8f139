/**
 `initialize_database._initialize` as the list of database states it passes through, one
 after each SQL statement that writes a message-map table, and what that list guarantees
 when the process may die after any of its statements and start again.
 */
module SchemaMigration {
  import opened Wrappers
  import opened MessageMapSchema

  function Last(d: Db, states: seq<Db>): Db {
    if states == [] then d else states[|states| - 1]
  }

  predicate IsText(t: Option<Table>) {
    t.Some? && t.value.textIds
  }

  predicate HasMesh(t: Option<Table>) {
    t.Some? && t.value.hasMesh
  }

  // ---------- the phases of _initialize ----------

  function Prepare(d: Db): seq<Db> {
    var d1 := Exec(d, CreateIfNotExists);
    if HasMesh(d1.messageMap) then [d1] else [d1, Exec(d1, AddMeshColumn)]
  }

  /** Rows of a left-over stale table go to the temporary table, or straight to message_map
      when only the stale table can keep their meshnet values. */
  function StaleTarget(d: Db): TableName {
    if !HasMesh(d.oldTemp) && HasMesh(d.staleTemp) then MessageMap else OldTemp
  }

  function RecoverStale(d: Db): seq<Db>
    requires HasMesh(d.messageMap)
  {
    if d.staleTemp.None? then []
    else if d.oldTemp.None? then [Exec(d, Rename(StaleTemp, OldTemp))]
    else
      var d1 := Exec(d, InsertOrIgnore(StaleTarget(d), StaleTemp, HasMesh(d.staleTemp)));
      [d1, Exec(d1, DropIfExists(StaleTemp))]
  }

  /** Merge `name` into a message_map whose ids are already TEXT. */
  function MergeIntoText(d: Db, name: TableName): seq<Db>
    requires HasMesh(d.messageMap)
  {
    if d.Get(name).None? || !IsText(d.messageMap) then []
    else
      var d1 := Exec(d, InsertOrIgnore(MessageMap, name, HasMesh(d.Get(name))));
      [d1, Exec(d1, DropIfExists(name))]
  }

  function Prepared(d: Db): (r: Db)
    ensures HasMesh(r.messageMap)
    ensures r == d.(messageMap := r.messageMap)
    ensures IsText(r.messageMap) <==> (d.messageMap.None? || IsText(d.messageMap))
  {
    Last(d, Prepare(d))
  }

  function Recovered(d: Db): (r: Db)
    requires HasMesh(d.messageMap)
    ensures HasMesh(r.messageMap) && IsText(r.messageMap) == IsText(d.messageMap)
    ensures r.staleTemp.None? && r.legacy == d.legacy
  {
    Last(d, RecoverStale(d))
  }

  function Merged(d: Db, name: TableName): (r: Db)
    requires HasMesh(d.messageMap) && name != MessageMap
    ensures HasMesh(r.messageMap) && IsText(r.messageMap) == IsText(d.messageMap)
    ensures if IsText(d.messageMap) then r == d.Put(name, None).(messageMap := r.messageMap) else r == d
  {
    Last(d, MergeIntoText(d, name))
  }

  function SetTempAside(d: Db): seq<Db> {
    if d.oldTemp.None? then []
    else
      var d1 := Exec(d, DropIfExists(StaleTemp));
      [d1, Exec(d1, Rename(OldTemp, StaleTemp))]
  }

  function RebuildTable(d: Db): seq<Db>
    requires HasMesh(d.messageMap) && d.oldTemp.None?
  {
    var d1 := Exec(d, Rename(MessageMap, OldTemp));
    var d2 := Exec(d1, Create);
    [d1, d2, Exec(d2, Insert(OldTemp, true))]
  }

  /** `mergeFails`: SQLite reports an error while the preserved stale table is merged back. */
  function MergeAside(d: Db, mergeFails: bool): seq<Db>
    requires HasMesh(d.messageMap)
  {
    if d.staleTemp.None? || mergeFails then []
    else
      var d1 := Exec(d, InsertOrIgnore(MessageMap, StaleTemp, HasMesh(d.staleTemp)));
      [d1, Exec(d1, DropIfExists(StaleTemp))]
  }

  function AbsorbLegacy(d: Db): seq<Db>
    requires HasMesh(d.messageMap)
  {
    if d.legacy.None? then []
    else [Exec(d, InsertOrIgnore(MessageMap, Legacy, HasMesh(d.legacy)))]
  }

  /** The states at which the phases of the rebuild end. */
  function TempAside(d: Db): (r: Db)
    ensures r == d.(oldTemp := None, staleTemp := if d.oldTemp.Some? then d.oldTemp else d.staleTemp)
  {
    Last(d, SetTempAside(d))
  }

  function Rebuilt(d: Db): (r: Db)
    requires HasMesh(d.messageMap) && d.oldTemp.None?
    ensures HasMesh(r.messageMap) && IsText(r.messageMap)
    ensures r == d.(messageMap := r.messageMap, oldTemp := r.oldTemp)
  {
    Last(d, RebuildTable(d))
  }

  function LegacyAbsorbed(d: Db): (r: Db)
    requires HasMesh(d.messageMap)
    ensures HasMesh(r.messageMap) && IsText(r.messageMap) == IsText(d.messageMap)
    ensures r == d.(messageMap := r.messageMap)
  {
    Last(d, AbsorbLegacy(d))
  }

  function AsideMerged(d: Db, mergeFails: bool): (r: Db)
    requires HasMesh(d.messageMap)
    ensures HasMesh(r.messageMap) && IsText(r.messageMap) == IsText(d.messageMap)
    ensures r == d.(messageMap := r.messageMap, staleTemp := if mergeFails then d.staleTemp else None)
  {
    Last(d, MergeAside(d, mergeFails))
  }

  /** The rebuild of a message_map whose ids are not TEXT. */
  function Rebuild(d: Db, mergeFails: bool): seq<Db>
    requires HasMesh(d.messageMap)
  {
    if IsText(d.messageMap) then []
    else
      var d1 := TempAside(d);
      var d2 := Rebuilt(d1);
      var d3 := LegacyAbsorbed(d2);
      var d4 := Exec(d3, DropIfExists(OldTemp));
      var d5 := AsideMerged(d4, mergeFails);
      SetTempAside(d) + RebuildTable(d1) + AbsorbLegacy(d2) + [d4] + MergeAside(d4, mergeFails)
        + [Exec(d5, DropIfExists(Legacy))]
  }

  function BeforeRebuild(d: Db): Db {
    Merged(Merged(Recovered(Prepared(d)), OldTemp), Legacy)
  }

  /** Every state that one run of `_initialize` on `d` passes through.  That this function is
      well defined says that no statement of any run raises an SQL error of its own: no
      RENAME meets an existing table, no INSERT violates the primary key. */
  function Trace(d: Db, mergeFails: bool): seq<Db> {
    var d1 := Prepared(d);
    var d2 := Recovered(d1);
    var d3 := Merged(d2, OldTemp);
    var d4 := Merged(d3, Legacy);
    Prepare(d) + RecoverStale(d1) + MergeIntoText(d2, OldTemp) + MergeIntoText(d3, Legacy)
      + Rebuild(d4, mergeFails)
  }

  /** The database after an uninterrupted run. */
  function Final(d: Db, mergeFails: bool): Db {
    Last(d, Trace(d, mergeFails))
  }

  /** A run that dies after `point` statements (or completes, if it has no more). */
  datatype Crash = Crash(point: nat, mergeFails: bool)

  function AfterCrash(d: Db, c: Crash): Db {
    var states := [d] + Trace(d, c.mergeFails);
    if c.point < |states| then states[c.point] else Last(d, states)
  }

  function AfterCrashes(d: Db, crashes: seq<Crash>): Db
    decreases |crashes|
  {
    if crashes == [] then d else AfterCrashes(AfterCrash(d, crashes[0]), crashes[1..])
  }

  // ---------- the invariant of every state of every run ----------

  /** `row` is, up to the id's storage class, what some table held for `e` at the start. */
  ghost predicate Original(d0: Db, e: EventId, row: Row) {
    exists name: TableName :: d0.Has(name, e) && Same(row, d0.At(name, e))
  }

  /** A row that was live at the start is in message_map, or absent there and held by a
      temporary table with a meshnet column while message_map is TEXT or missing. */
  ghost predicate Held(d: Db, e: EventId, row: Row) {
    || (d.Has(MessageMap, e) && Same(d.At(MessageMap, e), row))
    || (&& !d.Has(MessageMap, e) && (d.messageMap.Some? ==> IsText(d.messageMap))
        && HasMesh(d.oldTemp) && d.Has(OldTemp, e) && Same(d.At(OldTemp, e), row))
  }

  ghost predicate Safe(d0: Db, d: Db) {
    && d.WellFormed()
    && d.Ids() == d0.Ids()
    && (forall name: TableName, e: EventId :: d.Has(name, e) ==> Original(d0, e, d.At(name, e)))
    && (forall e: EventId :: d0.Has(MessageMap, e) ==> Held(d, e, d0.At(MessageMap, e)))
  }

  /** No live row is still waiting in the temporary table. */
  ghost predicate Settled(d: Db) {
    && d.messageMap.Some?
    && (IsText(d.messageMap) && HasMesh(d.oldTemp) ==> d.Keys(OldTemp) <= d.Keys(MessageMap))
  }

  /** What must hold before a statement so that it neither loses nor overrides a row. */
  ghost predicate Guarded(d: Db, s: Statement) {
    match s
    case CreateIfNotExists => true
    case AddMeshColumn => true
    case Create => true
    case Rename(from, to) =>
      && from != to && to != MessageMap
      && (from == MessageMap ==> to == OldTemp && HasMesh(d.messageMap) && Settled(d))
      && (from == OldTemp ==> Settled(d) && !IsText(d.messageMap))
      && (to == OldTemp || to == StaleTemp)
    case Insert(source, withMesh) =>
      && (source == OldTemp || Settled(d)) && source != MessageMap
      && withMesh == HasMesh(d.Get(source))
    case InsertOrIgnore(target, source, withMesh) =>
      && (if target == MessageMap then source != MessageMap && (source == OldTemp || Settled(d))
          else target == OldTemp && source == StaleTemp)
      && withMesh == HasMesh(d.Get(source))
    case DropIfExists(name) =>
      && name != MessageMap
      && d.Keys(name) <= d.Keys(MessageMap) + (if name == StaleTemp then d.Keys(OldTemp) else {})
  }

  lemma AbsorbKeepsWellFormed(target: Table, source: Table, withMesh: bool)
    requires target.WellFormed() && source.WellFormed()
    requires withMesh ==> target.hasMesh
    ensures target.Absorb(source, withMesh).WellFormed()
    ensures target.Absorb(source, withMesh).rows.Keys == target.rows.Keys + source.rows.Keys
    ensures forall e | e in target.rows :: target.Absorb(source, withMesh).rows[e] == target.rows[e]
    ensures withMesh == source.hasMesh ==>
              forall e | e in source.rows && e !in target.rows ::
                Same(target.Absorb(source, withMesh).rows[e], source.rows[e])
  {
  }

  lemma PutKeepsWellFormed(d: Db, name: TableName, t: Option<Table>)
    requires d.WellFormed() && (t.Some? ==> t.value.WellFormed())
    ensures d.Put(name, t).WellFormed()
  {
  }

  lemma GetIsWellFormed(d: Db, name: TableName)
    requires d.WellFormed() && d.Get(name).Some?
    ensures d.Get(name).value.WellFormed()
  {
  }

  lemma RenameKeepsWellFormed(d: Db, from: TableName, to: TableName)
    requires d.WellFormed() && Legal(d, Rename(from, to))
    ensures Exec(d, Rename(from, to)).WellFormed()
  {
    GetIsWellFormed(d, from);
    PutKeepsWellFormed(d, to, d.Get(from));
    PutKeepsWellFormed(d.Put(to, d.Get(from)), from, None);
  }

  lemma AbsorbedIsWellFormed(d: Db, target: TableName, source: TableName, withMesh: bool)
    requires d.WellFormed() && d.Get(target).Some? && d.Get(source).Some?
    requires withMesh ==> d.Get(target).value.hasMesh
    ensures d.Put(target, Some(d.Get(target).value.Absorb(d.Get(source).value, withMesh))).WellFormed()
  {
    GetIsWellFormed(d, target);
    GetIsWellFormed(d, source);
    AbsorbKeepsWellFormed(d.Get(target).value, d.Get(source).value, withMesh);
    PutKeepsWellFormed(d, target, Some(d.Get(target).value.Absorb(d.Get(source).value, withMesh)));
  }

  lemma CreationKeepsWellFormed(d: Db, s: Statement)
    requires d.WellFormed() && Legal(d, s) && (s.CreateIfNotExists? || s.AddMeshColumn? || s.Create?)
    ensures Exec(d, s).WellFormed()
  {
  }

  lemma StatementKeepsWellFormed(d: Db, s: Statement)
    requires d.WellFormed() && Legal(d, s)
    ensures Exec(d, s).WellFormed()
  {
    match s {
      case Rename(from, to) => RenameKeepsWellFormed(d, from, to);
      case Insert(source, withMesh) => AbsorbedIsWellFormed(d, MessageMap, source, withMesh);
      case InsertOrIgnore(target, source, withMesh) => AbsorbedIsWellFormed(d, target, source, withMesh);
      case DropIfExists(name) => PutKeepsWellFormed(d, name, None);
      case _ => CreationKeepsWellFormed(d, s);
    }
  }

  lemma StatementKeepsIds(d: Db, s: Statement)
    requires Legal(d, s) && Guarded(d, s)
    ensures Exec(d, s).Ids() == d.Ids()
  {
  }

  /** Every row after the statement is a row from before it, with at most its id cast. */
  lemma StatementMovesRow(d: Db, s: Statement, name: TableName, e: EventId) returns (from: TableName)
    requires d.WellFormed() && Legal(d, s) && Guarded(d, s) && Exec(d, s).Has(name, e)
    ensures d.Has(from, e) && Same(Exec(d, s).At(name, e), d.At(from, e))
  {
    from := match s
      case Rename(source, target) => if name == target then source else name
      case Insert(source, _) => if d.Has(name, e) then name else source
      case InsertOrIgnore(_, source, _) => if d.Has(name, e) then name else source
      case _ => name;
  }

  lemma StatementKeepsHeld(d: Db, s: Statement, e: EventId, row: Row)
    requires d.WellFormed() && Legal(d, s) && Guarded(d, s) && Held(d, e, row)
    ensures Held(Exec(d, s), e, row)
  {
  }

  lemma StatementKeepsSafe(d0: Db, d: Db, s: Statement)
    requires Safe(d0, d) && Legal(d, s) && Guarded(d, s)
    ensures Safe(d0, Exec(d, s))
  {
    var d' := Exec(d, s);
    StatementKeepsWellFormed(d, s);
    StatementKeepsIds(d, s);
    forall name: TableName, e: EventId | d'.Has(name, e)
      ensures Original(d0, e, d'.At(name, e))
    {
      var from := StatementMovesRow(d, s, name, e);
      var origin: TableName :| d0.Has(origin, e) && Same(d.At(from, e), d0.At(origin, e));
      assert d0.Has(origin, e) && Same(d'.At(name, e), d0.At(origin, e));
    }
    forall e: EventId | d0.Has(MessageMap, e) ensures Held(d', e, d0.At(MessageMap, e)) {
      StatementKeepsHeld(d, s, e, d0.At(MessageMap, e));
    }
  }

  // ---------- every phase keeps it ----------

  ghost predicate AllSafe(d0: Db, states: seq<Db>) {
    forall i | 0 <= i < |states| :: Safe(d0, states[i])
  }

  lemma PrepareSafe(d0: Db, d: Db)
    requires Safe(d0, d)
    ensures AllSafe(d0, Prepare(d))
  {
    hide Safe;
    StatementKeepsSafe(d0, d, CreateIfNotExists);
    var d1 := Exec(d, CreateIfNotExists);
    if !HasMesh(d1.messageMap) {
      StatementKeepsSafe(d0, d1, AddMeshColumn);
    }
  }

  lemma RecoverStaleSafe(d0: Db, d: Db)
    requires Safe(d0, d) && HasMesh(d.messageMap)
    ensures AllSafe(d0, RecoverStale(d))
  {
    hide Safe;
    if d.staleTemp.Some? {
      if d.oldTemp.None? {
        StatementKeepsSafe(d0, d, Rename(StaleTemp, OldTemp));
      } else {
        var s := InsertOrIgnore(StaleTarget(d), StaleTemp, HasMesh(d.staleTemp));
        StatementKeepsSafe(d0, d, s);
        StatementKeepsSafe(d0, Exec(d, s), DropIfExists(StaleTemp));
      }
    }
  }

  lemma MergeIntoTextSafe(d0: Db, d: Db, name: TableName)
    requires Safe(d0, d) && HasMesh(d.messageMap)
    requires name == OldTemp || (name == Legacy && Settled(d))
    ensures AllSafe(d0, MergeIntoText(d, name))
  {
    hide Safe;
    if d.Get(name).Some? && IsText(d.messageMap) {
      var s := InsertOrIgnore(MessageMap, name, HasMesh(d.Get(name)));
      StatementKeepsSafe(d0, d, s);
      StatementKeepsSafe(d0, Exec(d, s), DropIfExists(name));
    }
  }

  lemma SetTempAsideSafe(d0: Db, d: Db)
    requires Safe(d0, d) && d.messageMap.Some? && !IsText(d.messageMap) && d.staleTemp.None?
    ensures AllSafe(d0, SetTempAside(d))
  {
    hide Safe;
    if d.oldTemp.Some? {
      StatementKeepsSafe(d0, d, DropIfExists(StaleTemp));
      StatementKeepsSafe(d0, Exec(d, DropIfExists(StaleTemp)), Rename(OldTemp, StaleTemp));
    }
  }

  lemma RebuildTableSafe(d0: Db, d: Db)
    requires Safe(d0, d) && HasMesh(d.messageMap) && d.oldTemp.None?
    ensures AllSafe(d0, RebuildTable(d))
  {
    hide Safe;
    StatementKeepsSafe(d0, d, Rename(MessageMap, OldTemp));
    var d1 := Exec(d, Rename(MessageMap, OldTemp));
    StatementKeepsSafe(d0, d1, Create);
    StatementKeepsSafe(d0, Exec(d1, Create), Insert(OldTemp, true));
  }

  lemma AbsorbLegacySafe(d0: Db, d: Db)
    requires Safe(d0, d) && HasMesh(d.messageMap) && Settled(d)
    ensures AllSafe(d0, AbsorbLegacy(d))
  {
    hide Safe;
    if d.legacy.Some? {
      StatementKeepsSafe(d0, d, InsertOrIgnore(MessageMap, Legacy, HasMesh(d.legacy)));
    }
  }

  lemma MergeAsideSafe(d0: Db, d: Db, mergeFails: bool)
    requires Safe(d0, d) && HasMesh(d.messageMap) && d.oldTemp.None?
    ensures AllSafe(d0, MergeAside(d, mergeFails))
  {
    hide Safe;
    if d.staleTemp.Some? && !mergeFails {
      var s := InsertOrIgnore(MessageMap, StaleTemp, HasMesh(d.staleTemp));
      StatementKeepsSafe(d0, d, s);
      StatementKeepsSafe(d0, Exec(d, s), DropIfExists(StaleTemp));
    }
  }

  lemma RebuildSafe(d0: Db, d: Db, mergeFails: bool)
    requires Safe(d0, d) && HasMesh(d.messageMap) && d.staleTemp.None?
    ensures AllSafe(d0, Rebuild(d, mergeFails))
  {
    hide Safe;
    if !IsText(d.messageMap) {
      SetTempAsideSafe(d0, d);
      var d1 := TempAside(d);
      RebuildTableSafe(d0, d1);
      var d2 := Rebuilt(d1);
      AbsorbLegacySafe(d0, d2);
      var d3 := LegacyAbsorbed(d2);
      StatementKeepsSafe(d0, d3, DropIfExists(OldTemp));
      var d4 := Exec(d3, DropIfExists(OldTemp));
      MergeAsideSafe(d0, d4, mergeFails);
      var d5 := AsideMerged(d4, mergeFails);
      StatementKeepsSafe(d0, d5, DropIfExists(Legacy));
    }
  }

  /** Crash safety of one run: every state it passes through is safe. */
  lemma TraceSafe(d0: Db, d: Db, mergeFails: bool)
    requires Safe(d0, d)
    ensures AllSafe(d0, Trace(d, mergeFails))
  {
    hide Safe;
    PrepareSafe(d0, d);
    var d1 := Prepared(d);
    RecoverStaleSafe(d0, d1);
    var d2 := Recovered(d1);
    MergeIntoTextSafe(d0, d2, OldTemp);
    var d3 := Merged(d2, OldTemp);
    MergeIntoTextSafe(d0, d3, Legacy);
    RebuildSafe(d0, Merged(d3, Legacy), mergeFails);
  }

  lemma FinalIsRebuilt(d: Db, mergeFails: bool)
    ensures var d4 := BeforeRebuild(d); Final(d, mergeFails) == Last(d4, Rebuild(d4, mergeFails))
  {
    hide Rebuild, RecoverStale, MergeIntoText, Exec;
    var d1 := Prepared(d);
    var d2 := Recovered(d1);
    assert Prepare(d) != [];
  }

  /** A completed run leaves message_map with TEXT ids and a meshnet column, and no other table
      unless the merge of the preserved stale table failed. */
  lemma FinalShape(d: Db, mergeFails: bool)
    ensures var f := Final(d, mergeFails);
      && HasMesh(f.messageMap) && IsText(f.messageMap)
      && f.oldTemp.None? && f.legacy.None?
      && (!mergeFails ==> f.staleTemp.None?)
  {
    FinalIsRebuilt(d, mergeFails);
  }

  // ---------- whole runs ----------

  lemma SafeAtStart(d: Db)
    requires d.WellFormed()
    ensures Safe(d, d)
  {
  }

  lemma FinalSafe(d0: Db, d: Db, mergeFails: bool)
    requires Safe(d0, d)
    ensures Safe(d0, Final(d, mergeFails))
  {
    hide Safe, Rebuild;
    TraceSafe(d0, d, mergeFails);
    assert Trace(d, mergeFails) != [];
  }

  lemma CrashKeepsSafe(d0: Db, d: Db, c: Crash)
    requires Safe(d0, d)
    ensures Safe(d0, AfterCrash(d, c))
  {
    TraceSafe(d0, d, c.mergeFails);
    hide Safe, Trace;
  }

  lemma {:induction false} CrashesKeepSafe(d0: Db, d: Db, crashes: seq<Crash>)
    requires Safe(d0, d)
    ensures Safe(d0, AfterCrashes(d, crashes))
    decreases |crashes|
  {
    hide Safe, AfterCrash;
    if crashes != [] {
      CrashKeepsSafe(d0, d, crashes[0]);
      CrashesKeepSafe(d0, AfterCrash(d, crashes[0]), crashes[1..]);
    }
  }

  lemma SafeAndAloneIsComplete(d0: Db, f: Db)
    requires Safe(d0, f) && f == Db(f.messageMap, None, None, None) && IsText(f.messageMap)
    ensures forall e: EventId :: e in f.messageMap.value.rows <==> exists name: TableName :: d0.Has(name, e)
    ensures forall e: EventId :: e in f.messageMap.value.rows ==>
      f.messageMap.value.rows[e].id.isText && Original(d0, e, f.messageMap.value.rows[e])
    ensures forall e: EventId :: d0.Has(MessageMap, e) ==>
      e in f.messageMap.value.rows && Same(f.messageMap.value.rows[e], d0.At(MessageMap, e))
  {
    var rows := f.messageMap.value.rows;
    forall e: EventId ensures e in rows <==> exists name: TableName :: d0.Has(name, e) {
      assert e in rows <==> e in f.Ids();
      AmongIds(d0, e);
    }
    forall e: EventId | e in rows ensures rows[e].id.isText && Original(d0, e, rows[e]) {
      assert f.Has(MessageMap, e);
    }
    forall e: EventId | d0.Has(MessageMap, e) ensures e in rows && Same(rows[e], d0.At(MessageMap, e)) {
      assert Held(f, e, d0.At(MessageMap, e));
    }
  }

  lemma AmongIds(d: Db, e: EventId)
    ensures e in d.Ids() <==> exists name: TableName :: d.Has(name, e)
  {
    if e in d.Ids() {
      assert d.Has(MessageMap, e) || d.Has(OldTemp, e) || d.Has(StaleTemp, e) || d.Has(Legacy, e);
    }
  }

  /**
   Recovery.  Start from any combination of the four tables, let any number of runs die after
   any statement, then let one run complete.  Nothing is lost: message_map alone holds every
   event id any table knew.  Nothing is invented: each row has the id text, room, text and meshnet
   of a row that some table held for its event at the start, and its id is stored as text.  And no
   row of the original message_map is overridden.
   */
  lemma RecoversEverything(d0: Db, crashes: seq<Crash>)
    requires d0.WellFormed()
    ensures var f := Final(AfterCrashes(d0, crashes), false);
      && f == Db(f.messageMap, None, None, None) && f.messageMap.Some?
      && var t := f.messageMap.value;
      && t.hasMesh && t.textIds
      && (forall e: EventId :: e in t.rows <==> exists name: TableName :: d0.Has(name, e))
      && (forall e: EventId :: e in t.rows ==>
            t.rows[e].id.isText
            && exists name: TableName :: d0.Has(name, e)
                 && var r := d0.At(name, e);
                    t.rows[e].id.text == r.id.text && t.rows[e].room == r.room && t.rows[e].text == r.text && t.rows[e].mesh == r.mesh)
      && (forall e: EventId :: d0.Has(MessageMap, e) ==>
            && e in t.rows
            && var r := d0.At(MessageMap, e);
               t.rows[e] == Row(NodeId(r.id.text, true), r.room, r.text, r.mesh))
  {
    hide Final, AfterCrashes;
    SafeAtStart(d0);
    CrashesKeepSafe(d0, d0, crashes);
    var d := AfterCrashes(d0, crashes);
    FinalSafe(d0, d, false);
    FinalShape(d, false);
    SafeAndAloneIsComplete(d0, Final(d, false));
    hide Safe;
    var rows := Final(d, false).messageMap.value.rows;
    forall e: EventId | e in rows
      ensures exists name: TableName :: d0.Has(name, e)
                && var r := d0.At(name, e);
                   rows[e].id.text == r.id.text && rows[e].room == r.room && rows[e].text == r.text && rows[e].mesh == r.mesh
    {
      var name: TableName :| d0.Has(name, e) && Same(rows[e], d0.At(name, e));
    }
  }

  /** Even a run whose last merge fails loses nothing: its rows wait in the stale table, and the
      next run brings them in. */
  lemma FailedMergeLosesNothing(d: Db, e: EventId)
    requires d.WellFormed()
    ensures var f := Final(d, true);
      && ((exists name: TableName :: f.Has(name, e)) <==> exists name: TableName :: d.Has(name, e))
      && Final(f, false).messageMap.Some?
      && (e in Final(f, false).messageMap.value.rows <==> exists name: TableName :: d.Has(name, e))
  {
    SafeAtStart(d);
    FinalSafe(d, d, true);
    var f := Final(d, true);
    assert f.WellFormed() && f.Ids() == d.Ids();
    AmongIds(d, e);
    AmongIds(f, e);
    RecoversEverything(f, []);
    assert AfterCrashes(f, []) == f;
    hide Final, Safe;
  }

  // ---------- the result of an uninterrupted run ----------

  /** The row `name` holds for `e`, its id cast to text. */
  function Lookup(d: Db, name: TableName, e: EventId): Option<Row> {
    if d.Has(name, e) then Some(AsText(d.At(name, e))) else None
  }

  function Prefer(first: Option<Row>, second: Option<Row>): Option<Row> {
    if first.Some? then first else second
  }

  datatype Order = Order(first: TableName, second: TableName, third: TableName, fourth: TableName)

  /** The order in which an uninterrupted run lets the rows of the four tables win. */
  function Precedence(d: Db): Order {
    var staleFirst := d.oldTemp.Some? && !HasMesh(d.oldTemp) && HasMesh(d.staleTemp);
    if d.messageMap.None? || IsText(d.messageMap) then
      if staleFirst then Order(MessageMap, StaleTemp, OldTemp, Legacy)
      else Order(MessageMap, OldTemp, StaleTemp, Legacy)
    else
      if staleFirst then Order(MessageMap, StaleTemp, Legacy, OldTemp)
      else Order(MessageMap, Legacy, OldTemp, StaleTemp)
  }

  function FirstWins(d: Db, order: Order, e: EventId): Option<Row> {
    Prefer(Lookup(d, order.first, e),
    Prefer(Lookup(d, order.second, e),
    Prefer(Lookup(d, order.third, e), Lookup(d, order.fourth, e))))
  }

  /** A row of a table after it has absorbed another: its own, or else the other table's. */
  lemma AbsorbedRow(target: Table, source: Table, e: EventId)
    requires target.WellFormed() && source.WellFormed()
    requires source.hasMesh ==> target.hasMesh
    ensures var rows := target.Absorb(source, source.hasMesh).rows;
      && (e in rows <==> e in target.rows || e in source.rows)
      && (e in rows ==> AsText(rows[e]) == AsText(if e in target.rows then target.rows[e] else source.rows[e]))
  {
  }

  lemma InsertOrIgnoreLookup(d: Db, target: TableName, source: TableName, name: TableName, e: EventId)
    requires d.WellFormed() && target != source
    requires Legal(d, InsertOrIgnore(target, source, HasMesh(d.Get(source))))
    ensures Lookup(Exec(d, InsertOrIgnore(target, source, HasMesh(d.Get(source)))), name, e)
         == if name == target then Prefer(Lookup(d, target, e), Lookup(d, source, e))
            else Lookup(d, name, e)
  {
    GetIsWellFormed(d, target);
    GetIsWellFormed(d, source);
    AbsorbedRow(d.Get(target).value, d.Get(source).value, e);
    PutGet(d, target, Some(d.Get(target).value.Absorb(d.Get(source).value, HasMesh(d.Get(source)))), name);
  }

  lemma PutGet(d: Db, target: TableName, t: Option<Table>, name: TableName)
    ensures d.Put(target, t).Get(name) == if name == target then t else d.Get(name)
  {
  }

  lemma PreparedLookup(d: Db, name: TableName, e: EventId)
    requires d.WellFormed()
    ensures Prepared(d).WellFormed() && Lookup(Prepared(d), name, e) == Lookup(d, name, e)
  {
  }

  /** Before the merges proper, a stale table has become, or joined, another table. */
  lemma RecoveredLookup(d: Db, e: EventId)
    requires d.WellFormed() && HasMesh(d.messageMap)
    ensures var r := Recovered(d);
      && r.WellFormed() && (r.oldTemp.Some? <==> d.oldTemp.Some? || d.staleTemp.Some?)
      && (if d.oldTemp.Some? && StaleTarget(d) == MessageMap then
            && Lookup(r, MessageMap, e) == Prefer(Lookup(d, MessageMap, e), Lookup(d, StaleTemp, e))
            && Lookup(r, OldTemp, e) == Lookup(d, OldTemp, e)
          else
            && Lookup(r, MessageMap, e) == Lookup(d, MessageMap, e)
            && Lookup(r, OldTemp, e) == Prefer(Lookup(d, OldTemp, e), Lookup(d, StaleTemp, e)))
  {
    if d.staleTemp.Some? && d.oldTemp.Some? {
      var s := InsertOrIgnore(StaleTarget(d), StaleTemp, HasMesh(d.staleTemp));
      StatementKeepsWellFormed(d, s);
      InsertOrIgnoreLookup(d, StaleTarget(d), StaleTemp, MessageMap, e);
      InsertOrIgnoreLookup(d, StaleTarget(d), StaleTemp, OldTemp, e);
    }
  }

  lemma MergedLookup(d: Db, name: TableName, e: EventId)
    requires d.WellFormed() && HasMesh(d.messageMap) && (name == OldTemp || name == Legacy)
    ensures Merged(d, name).WellFormed()
    ensures IsText(d.messageMap) ==>
      Lookup(Merged(d, name), MessageMap, e) == Prefer(Lookup(d, MessageMap, e), Lookup(d, name, e))
  {
    if d.Get(name).Some? && IsText(d.messageMap) {
      var s := InsertOrIgnore(MessageMap, name, HasMesh(d.Get(name)));
      assert Merged(d, name) == Exec(Exec(d, s), DropIfExists(name));
      hide Merged;
      StatementKeepsWellFormed(d, s);
      InsertOrIgnoreLookup(d, MessageMap, name, MessageMap, e);
    }
  }

  lemma TempAsideLookup(d: Db, e: EventId)
    requires d.WellFormed() && d.staleTemp.None?
    ensures TempAside(d).WellFormed()
    ensures Lookup(TempAside(d), StaleTemp, e) == Lookup(d, OldTemp, e)
  {
  }

  lemma RebuiltLookup(d: Db, e: EventId)
    requires d.WellFormed() && HasMesh(d.messageMap) && d.oldTemp.None?
    ensures Rebuilt(d).WellFormed()
    ensures Lookup(Rebuilt(d), MessageMap, e) == Lookup(d, MessageMap, e)
  {
    AbsorbKeepsWellFormed(FRESH_TABLE, d.messageMap.value, true);
  }

  lemma LegacyAbsorbedLookup(d: Db, e: EventId)
    requires d.WellFormed() && HasMesh(d.messageMap) && IsText(d.messageMap)
    ensures LegacyAbsorbed(d).WellFormed()
    ensures Lookup(LegacyAbsorbed(d), MessageMap, e)
         == Prefer(Lookup(d, MessageMap, e), Lookup(d, Legacy, e))
  {
    if d.legacy.Some? {
      InsertOrIgnoreLookup(d, MessageMap, Legacy, MessageMap, e);
      AbsorbKeepsWellFormed(d.messageMap.value, d.legacy.value, HasMesh(d.legacy));
    }
  }

  lemma AsideMergedLookup(d: Db, e: EventId)
    requires d.WellFormed() && HasMesh(d.messageMap) && IsText(d.messageMap)
    ensures Lookup(AsideMerged(d, false), MessageMap, e)
         == Prefer(Lookup(d, MessageMap, e), Lookup(d, StaleTemp, e))
  {
    if d.staleTemp.Some? {
      InsertOrIgnoreLookup(d, MessageMap, StaleTemp, MessageMap, e);
    }
  }

  lemma RebuildLookup(d: Db, e: EventId)
    requires d.WellFormed() && HasMesh(d.messageMap) && !IsText(d.messageMap) && d.staleTemp.None?
    ensures Lookup(Last(d, Rebuild(d, false)), MessageMap, e)
         == Prefer(Lookup(d, MessageMap, e), Prefer(Lookup(d, Legacy, e), Lookup(d, OldTemp, e)))
  {
    hide SetTempAside, RebuildTable, AbsorbLegacy, MergeAside, TempAside, Rebuilt, LegacyAbsorbed, AsideMerged;
    var d1 := TempAside(d);
    TempAsideLookup(d, e);
    RebuiltLookup(d1, e);
    var d2 := Rebuilt(d1);
    LegacyAbsorbedLookup(d2, e);
    var d4 := Exec(LegacyAbsorbed(d2), DropIfExists(OldTemp));
    AsideMergedLookup(d4, e);
  }

  lemma FinalLookup(d: Db, e: EventId)
    requires d.WellFormed()
    ensures Lookup(Final(d, false), MessageMap, e) == FirstWins(d, Precedence(d), e)
  {
    FinalIsRebuilt(d, false);
    hide Final, Prepared, Recovered, Merged;
    var d1 := Prepared(d);
    PreparedLookup(d, MessageMap, e);
    PreparedLookup(d, OldTemp, e);
    PreparedLookup(d, StaleTemp, e);
    PreparedLookup(d, Legacy, e);
    var d2 := Recovered(d1);
    RecoveredLookup(d1, e);
    var d3 := Merged(d2, OldTemp);
    MergedLookup(d2, OldTemp, e);
    var d4 := Merged(d3, Legacy);
    MergedLookup(d3, Legacy, e);
    if !IsText(d2.messageMap) {
      RebuildLookup(d4, e);
    }
  }

  /** The row of the first table, in the given order, that holds one for `e`. */
  function Winner(d: Db, order: Order, e: EventId): Option<Row> {
    if d.Has(order.first, e) then Some(d.At(order.first, e))
    else if d.Has(order.second, e) then Some(d.At(order.second, e))
    else if d.Has(order.third, e) then Some(d.At(order.third, e))
    else if d.Has(order.fourth, e) then Some(d.At(order.fourth, e))
    else None
  }

  /** An uninterrupted run is a first-wins merge of the four tables in the order of precedence: each
      winner keeps its id text, room, text and meshnet, and its id is stored as text. */
  lemma FinalIsFirstWins(d: Db, e: EventId)
    requires d.WellFormed()
    ensures var f, w := Final(d, false).messageMap, Winner(d, Precedence(d), e);
      && f.Some? && (e in f.value.rows <==> w.Some?)
      && (w.Some? ==> f.value.rows[e] == Row(NodeId(w.value.id.text, true), w.value.room, w.value.text, w.value.mesh))
  {
    FinalLookup(d, e);
    FinalShape(d, false);
    SafeAtStart(d);
    FinalSafe(d, d, false);
    var f := Final(d, false);
    assert f.WellFormed();
    hide Safe, Final, Precedence;
    assert f.Has(MessageMap, e) <==> e in f.messageMap.value.rows;
  }

  /** A second run finds nothing to do: its one state is the database it was given. */
  lemma SecondRunChangesNothing(d: Db, mergeFails: bool)
    requires d.WellFormed()
    ensures Trace(Final(d, false), mergeFails) == [Final(d, false)]
  {
    FinalShape(d, false);
    var f := Final(d, false);
    hide Final;
    assert Prepare(f) == [f];
  }
}
