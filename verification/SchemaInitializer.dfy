/**
 The migration as the program runs it: a cursor executes one SQL statement after another and
 the branches depend on what PRAGMA table_info and sqlite_master answer on the way.
 */
module SchemaInitializer {
  import opened Wrappers
  import opened MessageMapSchema
  import opened SchemaMigration

  class Cursor {
    var db: Db
    ghost var states: seq<Db>  // the database after each statement so far

    constructor (db: Db)
      ensures this.db == db && states == []
    {
      this.db := db;
      states := [];
    }

    /** `cursor.execute(s)`.  The precondition makes the caller show that SQLite accepts it. */
    method Execute(s: Statement)
      requires Legal(db, s)
      modifies this
      ensures db == Exec(old(db), s)
      ensures states == old(states) + [db]
    {
      db := Exec(db, s);
      states := states + [db];
    }

    method Initialize(mergeFails: bool)
      modifies this
      ensures states == old(states) + Trace(old(db), mergeFails)
      ensures db == Final(old(db), mergeFails)
    {
      ghost var start := db;
      FinalIsRebuilt(start, mergeFails);
      hide Prepare, RecoverStale, MergeIntoText, Rebuild, Final, Exec;
      var idsAreText := CreateWithMeshColumn();
      var tempExists := MergeStaleIntoTemp();
      tempExists := MergeIfText(OldTemp, tempExists, idsAreText);
      var legacyExists := MergeIfText(Legacy, db.legacy.Some?, idsAreText);
      RebuildUnlessText(idsAreText, tempExists, legacyExists, mergeFails);
    }

    /** Create message_map or add its meshnet column; then read the type of its id column. */
    method CreateWithMeshColumn() returns (idsAreText: bool)
      modifies this
      ensures states == old(states) + Prepare(old(db))
      ensures db == Prepared(old(db)) && idsAreText == IsText(db.messageMap)
    {
      Execute(CreateIfNotExists);
      if !HasMesh(db.messageMap) {
        Execute(AddMeshColumn);
      }
      idsAreText := IsText(db.messageMap);
    }

    method MergeStaleIntoTemp() returns (tempExists: bool)
      requires HasMesh(db.messageMap)
      modifies this
      ensures states == old(states) + RecoverStale(old(db))
      ensures db == Recovered(old(db)) && tempExists == db.oldTemp.Some?
    {
      tempExists := db.oldTemp.Some?;
      var staleExists := db.staleTemp.Some?;
      if staleExists && !tempExists {
        Execute(Rename(StaleTemp, OldTemp));
        tempExists := true;
      } else if staleExists && tempExists {
        var staleMesh := HasMesh(db.staleTemp);
        if HasMesh(db.oldTemp) {
          Execute(InsertOrIgnore(OldTemp, StaleTemp, staleMesh));
        } else if staleMesh {
          Execute(InsertOrIgnore(MessageMap, StaleTemp, true));
        } else {
          Execute(InsertOrIgnore(OldTemp, StaleTemp, false));
        }
        Execute(DropIfExists(StaleTemp));
      }
    }

    method MergeIfText(name: TableName, present: bool, idsAreText: bool) returns (remains: bool)
      requires HasMesh(db.messageMap) && idsAreText == IsText(db.messageMap)
      requires name != MessageMap && present == db.Get(name).Some?
      modifies this
      ensures states == old(states) + MergeIntoText(old(db), name)
      ensures db == Merged(old(db), name) && remains == db.Get(name).Some?
    {
      remains := present;
      if present && idsAreText {
        Execute(InsertOrIgnore(MessageMap, name, HasMesh(db.Get(name))));
        Execute(DropIfExists(name));
        remains := false;
      }
    }

    method RebuildUnlessText(idsAreText: bool, tempExists: bool, legacyExists: bool, mergeFails: bool)
      requires HasMesh(db.messageMap) && idsAreText == IsText(db.messageMap) && db.staleTemp.None?
      requires tempExists == db.oldTemp.Some? && legacyExists == db.legacy.Some?
      modifies this
      ensures states == old(states) + Rebuild(old(db), mergeFails)
      ensures db == Last(old(db), Rebuild(old(db), mergeFails))
    {
      if !idsAreText {
        hide SetTempAside, RebuildTable, MergeAside, AbsorbLegacy, Exec;
        hide TempAside, Rebuilt, LegacyAbsorbed, AsideMerged;
        RebuildWithLegacy(tempExists, legacyExists);
        Execute(DropIfExists(OldTemp));
        MergePreserved(tempExists, mergeFails);
        Execute(DropIfExists(Legacy));
      }
    }

    method RebuildWithLegacy(tempExists: bool, legacyExists: bool)
      requires HasMesh(db.messageMap)
      requires tempExists == db.oldTemp.Some? && legacyExists == db.legacy.Some?
      modifies this
      ensures db == LegacyAbsorbed(Rebuilt(TempAside(old(db))))
      ensures var aside := TempAside(old(db));
        states == old(states) + (SetTempAside(old(db)) + RebuildTable(aside) + AbsorbLegacy(Rebuilt(aside)))
    {
      hide SetTempAside, RebuildTable, AbsorbLegacy, TempAside, Rebuilt, LegacyAbsorbed;
      PreserveTemp(tempExists);
      RecreateMessageMap();
      MergeLegacy(legacyExists);
    }

    method PreserveTemp(tempExists: bool)
      requires tempExists == db.oldTemp.Some?
      modifies this
      ensures states == old(states) + SetTempAside(old(db)) && db == TempAside(old(db))
    {
      if tempExists {
        Execute(DropIfExists(StaleTemp));
        Execute(Rename(OldTemp, StaleTemp));
      }
    }

    method RecreateMessageMap()
      requires HasMesh(db.messageMap) && db.oldTemp.None?
      modifies this
      ensures states == old(states) + RebuildTable(old(db)) && db == Rebuilt(old(db))
    {
      Execute(Rename(MessageMap, OldTemp));
      Execute(Create);
      Execute(Insert(OldTemp, true));
    }

    method MergeLegacy(legacyExists: bool)
      requires HasMesh(db.messageMap) && legacyExists == db.legacy.Some?
      modifies this
      ensures states == old(states) + AbsorbLegacy(old(db)) && db == LegacyAbsorbed(old(db))
    {
      if legacyExists {
        Execute(InsertOrIgnore(MessageMap, Legacy, HasMesh(db.legacy)));
      }
    }

    method MergePreserved(staleExists: bool, mergeFails: bool)
      requires HasMesh(db.messageMap) && staleExists == db.staleTemp.Some?
      modifies this
      ensures states == old(states) + MergeAside(old(db), mergeFails)
      ensures db == AsideMerged(old(db), mergeFails)
    {
      if staleExists && !mergeFails {
        Execute(InsertOrIgnore(MessageMap, StaleTemp, HasMesh(db.staleTemp)));
        Execute(DropIfExists(StaleTemp));
      }
    }
  }
}
