/**
 The four message-map tables as SQLite sees them, and the effect of each SQL statement
 that the schema migration in db_utils.py executes on them.

 A table is keyed by `matrix_event_id`, its TEXT PRIMARY KEY.  It may or may not have the
 `meshtastic_meshnet` column, and its `meshtastic_id` column may or may not be of type TEXT.
 */
module MessageMapSchema {
  import opened Wrappers

  type EventId = string

  /** A `meshtastic_id` value: how it reads as text, and whether it is stored as TEXT. */
  datatype NodeId = NodeId(text: string, isText: bool)

  datatype Row = Row(id: NodeId, room: Option<string>, text: Option<string>, mesh: Option<string>)

  /** `CAST(meshtastic_id AS TEXT)`, which TEXT column affinity also performs. */
  function AsText(row: Row): Row {
    row.(id := row.id.(isText := true))
  }

  /** Equal up to the storage class of the id. */
  predicate Same(a: Row, b: Row) {
    a.id.text == b.id.text && a.room == b.room && a.text == b.text && a.mesh == b.mesh
  }

  datatype Table = Table(rows: map<EventId, Row>, hasMesh: bool, textIds: bool) {
    predicate WellFormed() {
      && (!hasMesh ==> forall e | e in rows :: rows[e].mesh == None)
      && (textIds ==> forall e | e in rows :: rows[e].id.isText)
    }

    /** What this table stores for `row`; without its meshnet value when `withMesh` is false. */
    function Stored(row: Row, withMesh: bool): Row {
      var row := if withMesh then row else row.(mesh := None);
      if textIds then AsText(row) else row
    }

    /** `INSERT OR IGNORE INTO this ... SELECT ... FROM source`: rows already here win. */
    function Absorb(source: Table, withMesh: bool): Table {
      this.(rows := (map e | e in source.rows :: Stored(source.rows[e], withMesh)) + rows)
    }
  }

  /** The table made by `CREATE TABLE message_map (...)`. */
  const FRESH_TABLE := Table(map[], true, true)

  datatype TableName = MessageMap | OldTemp | StaleTemp | Legacy

  datatype Db = Db(messageMap: Option<Table>, oldTemp: Option<Table>,
                   staleTemp: Option<Table>, legacy: Option<Table>)
  {
    function Get(name: TableName): Option<Table> {
      match name
      case MessageMap => messageMap
      case OldTemp => oldTemp
      case StaleTemp => staleTemp
      case Legacy => legacy
    }

    function Put(name: TableName, table: Option<Table>): Db {
      match name
      case MessageMap => this.(messageMap := table)
      case OldTemp => this.(oldTemp := table)
      case StaleTemp => this.(staleTemp := table)
      case Legacy => this.(legacy := table)
    }

    predicate WellFormed() {
      && (messageMap.Some? ==> messageMap.value.WellFormed())
      && (oldTemp.Some? ==> oldTemp.value.WellFormed())
      && (staleTemp.Some? ==> staleTemp.value.WellFormed())
      && (legacy.Some? ==> legacy.value.WellFormed())
    }

    predicate Has(name: TableName, e: EventId) {
      Get(name).Some? && e in Get(name).value.rows
    }

    function At(name: TableName, e: EventId): Row
      requires Has(name, e)
    {
      Get(name).value.rows[e]
    }

    function Keys(name: TableName): set<EventId> {
      if Get(name).Some? then Get(name).value.rows.Keys else {}
    }

    /** Every event id that some table knows. */
    function Ids(): set<EventId> {
      Keys(MessageMap) + Keys(OldTemp) + Keys(StaleTemp) + Keys(Legacy)
    }
  }

  datatype Statement =
    | CreateIfNotExists
    | AddMeshColumn
    | Create
    | Rename(from: TableName, to: TableName)
    | Insert(source: TableName, withMesh: bool)
    | InsertOrIgnore(target: TableName, source: TableName, withMesh: bool)
    | DropIfExists(name: TableName)

  /** SQLite executes the statement without raising an error. */
  predicate Legal(d: Db, s: Statement) {
    match s
    case CreateIfNotExists => true
    case AddMeshColumn => d.messageMap.Some? && !d.messageMap.value.hasMesh
    case Create => d.messageMap.None?
    case Rename(from, to) => d.Get(from).Some? && d.Get(to).None?
    case Insert(source, withMesh) =>
      && d.messageMap.Some? && d.messageMap.value.hasMesh
      && d.Get(source).Some? && (withMesh ==> d.Get(source).value.hasMesh)
      && d.Keys(MessageMap) !! d.Keys(source)  // otherwise the primary key is violated
    case InsertOrIgnore(target, source, withMesh) =>
      && d.Get(target).Some? && d.Get(source).Some?
      && (withMesh ==> d.Get(source).value.hasMesh)
      && (withMesh || target == MessageMap ==> d.Get(target).value.hasMesh)
    case DropIfExists(_) => true
  }

  function Exec(d: Db, s: Statement): Db
    requires Legal(d, s)
  {
    match s
    case CreateIfNotExists => if d.messageMap.Some? then d else d.(messageMap := Some(FRESH_TABLE))
    case AddMeshColumn => d.(messageMap := Some(d.messageMap.value.(hasMesh := true)))
    case Create => d.(messageMap := Some(FRESH_TABLE))
    case Rename(from, to) => d.Put(to, d.Get(from)).Put(from, None)
    case Insert(source, withMesh) =>
      d.(messageMap := Some(d.messageMap.value.Absorb(d.Get(source).value, withMesh)))
    case InsertOrIgnore(target, source, withMesh) =>
      d.Put(target, Some(d.Get(target).value.Absorb(d.Get(source).value, withMesh)))
    case DropIfExists(name) => d.Put(name, None)
  }
}
