/**
 Putting the whole service back from an archive (Restore and restoreStaged in
 backend/internal/backup/restore.go), with the database and media stages it drives
 (restoreStage in backend/internal/storage/migrations/migrations.go, localRestoreStage in
 backend/internal/media/store.go). Every step may fail; `Faults` says which ones do.
 */
module Restore {
  import opened Common
  import opened Paths
  import opened Archive
  import Writer = ArchiveWriter

  datatype Database = Database(schemaVersion: int, tables: map<string, Bytes>)

  type Files = map<string, Bytes>

  /** The schemas of the database and the generations of the media, with those in use. */
  datatype World = World(schemas: map<Id, Database>, public: Id, trees: map<Id, Files>, current: Id) {
    /** Both that are in use exist. */
    predicate Standing() {
      public in schemas && current in trees
    }
  }

  /** How replacing the link to the media generation in use ends: done, failed with the
      link kept, failed after switching it, or failed so that the link cannot be read. */
  datatype LinkFault = LinkDone | LinkKept | LinkSwitched | LinkLost

  /** How putting the link back ends: done, failed with the link where it was, or failed
      after it was put back. */
  datatype BackFault = BackDone | BackKept | BackSwitched

  /** How staging begins: done, refused before anything was made, or failed after that. */
  datatype BeginFault = BeginDone | BeginRefused | BeginMade

  /** Which steps fail; putting the files fails at the index `put`, if there is one. The last
      five are removals: of the schema a rollback put aside, of what was staged, and of the
      previous generations. */
  datatype Faults = Faults(beginDatabase: BeginFault, load: bool, upgrade: bool, beginFiles: BeginFault, put: nat,
                           activateDatabase: bool, link: LinkFault, rollbackFiles: BackFault, rollbackDatabase: bool,
                           dropFailed: bool, closeDatabase: bool, closeFiles: bool,
                           finishDatabase: bool, finishFiles: bool)

  class Instance {
    var world: World

    constructor (world: World)
      requires world.Standing()
      ensures this.world == world
    {
      this.world := world;
    }
  }

  // ------------------------------------------------------------- the stages

  /** A replacement schema kept apart from the live one. */
  class DatabaseStage {
    const instance: Instance
    const name: Id
    var previous: Id
    var active: bool
    /** Whether the staged schema has lost the name it was made under. */
    var renamed: bool

    constructor (instance: Instance, name: Id)
      ensures this.instance == instance && this.name == name && !active && !renamed
    {
      this.instance, this.name, previous, active, renamed := instance, name, 0, false, false;
    }

    /** Loads every table in one transaction. */
    method LoadTables(manifest: Manifest, files: map<string, Bytes>, fails: bool) returns (ok: bool)
      requires name in instance.world.schemas
      requires forall table :: table in manifest.tables ==> TablePath(table) in files
      modifies instance
      ensures ok <==> !fails
      ensures instance.world == old(instance.world).(schemas := instance.world.schemas)
      ensures instance.world.schemas == if fails then old(instance.world).schemas
              else old(instance.world).schemas[name := Database(old(instance.world).schemas[name].schemaVersion,
                                                                Loaded(manifest.tables, files))]
    {
      if fails {
        return false;
      }
      var tables: map<string, Bytes> := map[];
      for k := 0 to |manifest.tables|
        invariant tables == Loaded(manifest.tables[..k], files)
      {
        var table := manifest.tables[k];
        assert manifest.tables[..k + 1] == manifest.tables[..k] + [table];
        assert table in manifest.tables;
        tables := tables[table := files[TablePath(table)]];
      }
      assert manifest.tables[..|manifest.tables|] == manifest.tables;
      var version := instance.world.schemas[name].schemaVersion;
      instance.world := instance.world.(schemas := instance.world.schemas[name := Database(version, tables)]);
      return true;
    }

    /** Migrates the staged schema to this build. */
    method Upgrade(upgrade: Database -> Database, fails: bool) returns (ok: bool)
      requires name in instance.world.schemas
      modifies instance
      ensures ok <==> !fails
      ensures instance.world == if fails then old(instance.world)
              else old(instance.world).(
                     schemas := old(instance.world).schemas[name := upgrade(old(instance.world).schemas[name])])
    {
      if fails {
        return false;
      }
      var upgraded := upgrade(instance.world.schemas[name]);
      instance.world := instance.world.(schemas := instance.world.schemas[name := upgraded]);
      return true;
    }

    /** Swaps the staged schema with the live one, in one transaction. */
    method Activate(fails: bool) returns (ok: bool)
      requires !active
      modifies instance, this
      ensures ok <==> !fails
      ensures active == ok && renamed == (old(renamed) || ok) && (ok ==> previous == old(instance.world).public)
      ensures instance.world == if fails then old(instance.world) else old(instance.world).(public := name)
    {
      if fails {
        return false;
      }
      previous := instance.world.public;
      instance.world := instance.world.(public := name);
      active, renamed := true, true;
      return true;
    }

    /** Returns the previous schema, and then drops the one it replaces. */
    method Rollback(fails: bool, dropFails: bool)
      modifies instance, this
      ensures active == (old(active) && fails) && previous == old(previous) && renamed == old(renamed)
      ensures instance.world
           == if !old(active) || fails then old(instance.world)
              else old(instance.world).(public := previous,
                                        schemas := if dropFails then old(instance.world).schemas
                                                   else old(instance.world).schemas - {name})
    {
      if active && !fails {
        instance.world := instance.world.(public := previous);
        active := false;
        if !dropFails {
          instance.world := instance.world.(schemas := instance.world.schemas - {name});
        }
      }
    }

    /** Drops the previous schema. */
    method Finish(fails: bool)
      modifies instance
      ensures instance.world == if !active || fails then old(instance.world)
              else old(instance.world).(schemas := old(instance.world).schemas - {previous})
    {
      if active && !fails {
        instance.world := instance.world.(schemas := instance.world.schemas - {previous});
      }
    }

    /** Drops a stage that was not activated, by the name it was made under. */
    method Close(fails: bool)
      modifies instance
      ensures instance.world == if active || renamed || fails then old(instance.world)
              else old(instance.world).(schemas := old(instance.world).schemas - {name})
    {
      if !active && !renamed && !fails {
        instance.world := instance.world.(schemas := instance.world.schemas - {name});
      }
    }
  }

  /** A replacement media generation kept beside the live one. */
  class FileStage {
    const instance: Instance
    const name: Id
    const previous: Id
    var activated: bool

    constructor (instance: Instance, name: Id)
      ensures this.instance == instance && this.name == name && previous == instance.world.current && !activated
    {
      this.instance, this.name, previous, activated := instance, name, instance.world.current, false;
    }

    method Put(key: string, bytes: Bytes)
      requires name in instance.world.trees
      modifies instance
      ensures instance.world
           == old(instance.world).(
                trees := old(instance.world).trees[name := old(instance.world).trees[name][key := bytes]])
    {
      instance.world := instance.world.(
        trees := instance.world.trees[name := instance.world.trees[name][key := bytes]]);
    }

    /** Points the store at the staged generation. A failure may come after the link was
        switched; the stage then knows, if it can read the link back. */
    method Activate(link: LinkFault) returns (ok: bool)
      requires !activated
      modifies instance, this
      ensures ok <==> link == LinkDone
      ensures activated == (link == LinkDone || link == LinkSwitched)
      ensures instance.world
           == if link == LinkKept then old(instance.world) else old(instance.world).(current := name)
    {
      if link != LinkKept {
        instance.world := instance.world.(current := name);
      }
      activated := link == LinkDone || link == LinkSwitched;
      return link == LinkDone;
    }

    /** Points the store back at the previous generation. */
    method Rollback(back: BackFault)
      modifies instance, this
      ensures activated == (old(activated) && back != BackDone)
      ensures instance.world == if !old(activated) || back == BackKept then old(instance.world)
              else old(instance.world).(current := previous)
    {
      if activated {
        if back != BackKept {
          instance.world := instance.world.(current := previous);
        }
        activated := back != BackDone;
      }
    }

    /** Removes the previous generation. */
    method Finish(fails: bool)
      modifies instance
      ensures instance.world == if fails then old(instance.world)
              else old(instance.world).(trees := old(instance.world).trees - {previous})
    {
      if !fails {
        instance.world := instance.world.(trees := instance.world.trees - {previous});
      }
    }

    /** Removes a stage that was not activated, as far as it knows. */
    method Close(fails: bool)
      modifies instance
      ensures instance.world == if activated || fails then old(instance.world)
              else old(instance.world).(trees := old(instance.world).trees - {name})
    {
      if !activated && !fails {
        instance.world := instance.world.(trees := instance.world.trees - {name});
      }
    }
  }

  // ------------------------------------------------------------- what a restore puts back

  function Loaded(tables: seq<string>, files: map<string, Bytes>): map<string, Bytes>
    requires forall table :: table in tables ==> TablePath(table) in files
  {
    map table | table in tables :: files[TablePath(table)]
  }

  function Stored(records: seq<Record>, files: map<string, Bytes>): Files
    requires forall record :: record in records ==> MediaPath(record.name) in files
  {
    if records == [] then map[]
    else
      var last := records[|records| - 1];
      Stored(records[..|records| - 1], files)[last.name := files[MediaPath(last.name)]]
  }

  ghost predicate Complete(manifest: Manifest, metadata: Metadata, files: map<string, Bytes>) {
    && (forall table :: table in manifest.tables ==> TablePath(table) in files)
    && forall record :: record in metadata.files ==> MediaPath(record.name) in files
  }

  /** The database the archive holds, at this build's schema. */
  function NewDatabase(manifest: Manifest, files: map<string, Bytes>, upgrade: Database -> Database): Database
    requires forall table :: table in manifest.tables ==> TablePath(table) in files
  {
    upgrade(Database(manifest.schemaVersion, Loaded(manifest.tables, files)))
  }

  /** Every step before the media are switched over succeeds. */
  predicate Reaches(faults: Faults, count: nat) {
    && faults.beginDatabase == BeginDone && !faults.load && !faults.upgrade && faults.beginFiles == BeginDone
    && faults.put >= count && !faults.activateDatabase
  }

  predicate Succeeds(faults: Faults, count: nat) {
    Reaches(faults, count) && faults.link == LinkDone
  }

  /** Pointing the store at the restored media failed and could not be undone. */
  predicate MediaStay(faults: Faults) {
    faults.link == LinkLost || (faults.link == LinkSwitched && faults.rollbackFiles == BackKept)
  }

  /** The one way a failed restore does not leave the old instance in use: switching the
      media fails after the database was switched, and what was switched cannot be undone. */
  predicate Stuck(faults: Faults, count: nat) {
    Reaches(faults, count) && faults.link != LinkDone && (MediaStay(faults) || faults.rollbackDatabase)
  }

  /** Whether a failed restore leaves the schema it made behind: once the schema was switched
      to, unless the switch was undone and the schema dropped; before that, unless it was dropped. */
  predicate LeavesSchema(faults: Faults, count: nat) {
    && faults.beginDatabase != BeginRefused
    && if Reaches(faults, count) then faults.rollbackDatabase || faults.dropFailed else faults.closeDatabase
  }

  /** Whether a failed restore that came to the media leaves the generation it made behind:
      while it takes that for the one in use, and otherwise unless it was removed. */
  predicate LeavesMedia(faults: Faults, count: nat) {
    && faults.beginFiles != BeginRefused
    && (faults.closeFiles
        || (&& faults.beginFiles == BeginDone && faults.put >= count && !faults.activateDatabase
            && faults.link == LinkSwitched && faults.rollbackFiles != BackDone))
  }

  predicate LeavesTree(faults: Faults, count: nat) {
    faults.beginDatabase == BeginDone && !faults.load && !faults.upgrade && LeavesMedia(faults, count)
  }

  // ------------------------------------------------------------- the restore

  method CutOver(database: DatabaseStage, files: FileStage, faults: Faults) returns (ok: bool)
    requires database.instance == files.instance && !database.active && !database.renamed && !files.activated
    requires files.previous == files.instance.world.current
    modifies database.instance, database, files
    ensures ok <==> !faults.activateDatabase && faults.link == LinkDone
    ensures database.renamed == !faults.activateDatabase
    ensures var world, after := old(database.instance.world), database.instance.world;
            if ok then
              && database.active && files.activated
              && after.public == database.name && after.current == files.name
              && after.schemas == (if faults.finishDatabase then world.schemas else world.schemas - {world.public})
              && after.trees == (if faults.finishFiles then world.trees else world.trees - {world.current})
            else if faults.activateDatabase then after == world && !database.active && !files.activated
            else
              && database.active == faults.rollbackDatabase
              && files.activated == (faults.link == LinkSwitched && faults.rollbackFiles != BackDone)
              && after.trees == world.trees
              && after.current == (if MediaStay(faults) then files.name else world.current)
              && after.public == (if faults.rollbackDatabase then database.name else world.public)
              && after.schemas == (if faults.rollbackDatabase || faults.dropFailed then world.schemas
                                   else world.schemas - {database.name})
  {
    var done := database.Activate(faults.activateDatabase);
    if !done {
      return false;
    }
    done := files.Activate(faults.link);
    if !done {
      files.Rollback(faults.rollbackFiles);
      database.Rollback(faults.rollbackDatabase, faults.dropFailed);
      return false;
    }
    database.Finish(faults.finishDatabase);
    files.Finish(faults.finishFiles);
    return true;
  }

  /** What a failure leaves once there is a staged schema, before that is closed. */
  ghost predicate CutShort(before: World, after: World, schema: Id, active: bool, renamed: bool, tree: Id,
                         records: seq<Record>, files: map<string, Bytes>, faults: Faults)
    requires forall record :: record in records ==> MediaPath(record.name) in files
  {
    && after.trees - {tree} == before.trees && (tree in after.trees <==> LeavesMedia(faults, |records|))
    && if faults.beginFiles != BeginDone || faults.put < |records| || faults.activateDatabase then
         && !active && !renamed
         && after.schemas == before.schemas && after.public == before.public && after.current == before.current
       else
         && active == faults.rollbackDatabase && renamed
         && after.public == (if faults.rollbackDatabase then schema else before.public)
         && after.schemas == (if faults.rollbackDatabase || faults.dropFailed then before.schemas
                              else before.schemas - {schema})
         && after.current == (if MediaStay(faults) then tree else before.current)
         && (tree in after.trees ==> after.trees[tree] == Stored(records, files))
  }

  /** Writes the files of the archive into an empty stage. */
  method PutFiles(stage: FileStage, records: seq<Record>, files: map<string, Bytes>, put: nat) returns (ok: bool)
    requires stage.name in stage.instance.world.trees && stage.instance.world.trees[stage.name] == map[]
    requires forall record :: record in records ==> MediaPath(record.name) in files
    modifies stage.instance
    ensures ok <==> put >= |records|
    ensures var world, after := old(stage.instance.world), stage.instance.world;
            && stage.name in after.trees && (ok ==> after.trees[stage.name] == Stored(records, files))
            && after == world.(trees := world.trees[stage.name := after.trees[stage.name]])
  {
    ghost var world := stage.instance.world;
    for k := 0 to |records|
      invariant k <= put && stage.name in stage.instance.world.trees
      invariant stage.instance.world == world.(trees := world.trees[stage.name := Stored(records[..k], files)])
    {
      assert records[..k + 1][..k] == records[..k];
      if k == put {
        return false;
      }
      var record := records[k];
      stage.Put(record.name, files[MediaPath(record.name)]);
    }
    assert records[..|records|] == records;
    return true;
  }

  /** Fills the staged media and switches both over; the media stage is closed at the end. */
  method RestoreFiles(database: DatabaseStage, tree: Id, metadata: Metadata, files: map<string, Bytes>, faults: Faults)
    returns (ok: bool)
    requires !database.active && !database.renamed
    requires tree !in database.instance.world.trees && database.instance.world.Standing()
    requires forall record :: record in metadata.files ==> MediaPath(record.name) in files
    modifies database.instance, database
    ensures ok <==> && faults.beginFiles == BeginDone && faults.put >= |metadata.files|
                    && !faults.activateDatabase && faults.link == LinkDone
    ensures var world, after := old(database.instance.world), database.instance.world;
            if ok then
              && database.active && after.public == database.name && after.current == tree
              && after.schemas == (if faults.finishDatabase then world.schemas else world.schemas - {world.public})
              && after.trees == (if faults.finishFiles then world.trees else world.trees - {world.current})
                                [tree := Stored(metadata.files, files)]
            else
              CutShort(world, after, database.name, database.active, database.renamed, tree, metadata.files, files,
                       faults)
  {
    hide Stored;
    hide MediaPath;
    var instance := database.instance;
    if faults.beginFiles == BeginRefused {
      return false;
    }
    ghost var world := instance.world;
    var stage := new FileStage(instance, tree);
    instance.world := instance.world.(trees := instance.world.trees[tree := map[]]);
    if faults.beginFiles == BeginMade {
      stage.Close(faults.closeFiles);
      return false;
    }
    ok := PutFiles(stage, metadata.files, files, faults.put);
    if !ok {
      stage.Close(faults.closeFiles);
      return;
    }
    MapFacts(world.trees, tree, Stored(metadata.files, files), world.current);
    ok := CutOver(database, stage, faults);
    ghost var left := instance.world;
    stage.Close(faults.closeFiles);
    if !ok {
      ClosedIsCutShort(world, left, instance.world, database.name, database.active, database.renamed, tree,
                       stage.activated, metadata.files, files, faults);
    }
  }

  lemma {:induction false} ClosedIsCutShort(before: World, left: World, after: World, schema: Id, active: bool,
                                            renamed: bool, tree: Id, activated: bool, records: seq<Record>,
                                            files: map<string, Bytes>, faults: Faults)
    requires forall record :: record in records ==> MediaPath(record.name) in files
    requires tree !in before.trees && faults.beginFiles == BeginDone && faults.put >= |records|
    requires renamed == !faults.activateDatabase && left.trees == before.trees[tree := Stored(records, files)]
    requires after == if activated || faults.closeFiles then left else left.(trees := left.trees - {tree})
    requires if faults.activateDatabase then
               !active && !activated && left == before.(trees := left.trees)
             else
               && faults.link != LinkDone && active == faults.rollbackDatabase
               && activated == (faults.link == LinkSwitched && faults.rollbackFiles != BackDone)
               && left.current == (if MediaStay(faults) then tree else before.current)
               && left.public == (if faults.rollbackDatabase then schema else before.public)
               && left.schemas == (if faults.rollbackDatabase || faults.dropFailed then before.schemas
                                   else before.schemas - {schema})
    ensures CutShort(before, after, schema, active, renamed, tree, records, files, faults)
  {
    hide Stored;
    hide MediaPath;
    assert before.trees[tree := Stored(records, files)] - {tree} == before.trees;
  }

  /** Builds the replacement beside the live instance, then switches both over. */
  method RestoreStaged(instance: Instance, schema: Id, tree: Id, manifest: Manifest, metadata: Metadata,
                       files: map<string, Bytes>, upgrade: Database -> Database, faults: Faults)
    returns (ok: bool)
    requires instance.world.Standing() && schema !in instance.world.schemas && tree !in instance.world.trees
    requires Complete(manifest, metadata, files)
    modifies instance
    ensures ok <==> Succeeds(faults, |metadata.files|)
    ensures ok <==> && faults.beginDatabase == BeginDone && !faults.load && !faults.upgrade
                    && faults.beginFiles == BeginDone && faults.put >= |metadata.files|
                    && !faults.activateDatabase && faults.link == LinkDone
    ensures ok ==>
              PutBack(old(instance.world), instance.world, schema, tree, manifest, metadata, files, upgrade, faults)
    ensures !ok ==>
              Undone(old(instance.world), instance.world, schema, tree, manifest, metadata, files, upgrade, faults)
  {
    hide NewDatabase;
    hide Loaded;
    hide Stored;
    hide TablePath;
    hide MediaPath;
    if faults.beginDatabase == BeginRefused {
      return false;
    }
    ghost var world := instance.world;
    var stage := new DatabaseStage(instance, schema);
    instance.world := instance.world.(
      schemas := instance.world.schemas[schema := Database(manifest.schemaVersion, map[])]);
    if faults.beginDatabase == BeginMade {
      stage.Close(faults.closeDatabase);
      return false;
    }
    ghost var staged;
    ok, staged := PrepareDatabase(stage, manifest, files, upgrade, faults);
    MapFacts(world.schemas, schema, staged, world.public);
    assert instance.world == world.(schemas := world.schemas[schema := staged]);
    if !ok {
      stage.Close(faults.closeDatabase);
      return;
    }
    ok := RestoreFiles(stage, tree, metadata, files, faults);
    ghost var left := instance.world;
    stage.Close(faults.closeDatabase);
    if !ok {
      CutShortIsUndone(world, left, instance.world, schema, tree, manifest, metadata, files, upgrade, faults,
                     stage.active, stage.renamed);
    }
  }

  lemma MapFacts<T>(m: map<Id, T>, key: Id, value: T, other: Id)
    requires key !in m && other in m
    ensures m[key := value] - {key} == m
    ensures m[key := value] - {other} == (m - {other})[key := value]
  {
  }

  /** Loads the staged schema and migrates it. */
  method PrepareDatabase(stage: DatabaseStage, manifest: Manifest, files: map<string, Bytes>,
                         upgrade: Database -> Database, faults: Faults)
    returns (ok: bool, ghost staged: Database)
    requires stage.name in stage.instance.world.schemas
    requires stage.instance.world.schemas[stage.name].schemaVersion == manifest.schemaVersion
    requires forall table :: table in manifest.tables ==> TablePath(table) in files
    modifies stage.instance
    ensures ok <==> !faults.load && !faults.upgrade
    ensures stage.instance.world
         == old(stage.instance.world).(schemas := old(stage.instance.world).schemas[stage.name := staged])
    ensures ok ==> staged == NewDatabase(manifest, files, upgrade)
  {
    staged := stage.instance.world.schemas[stage.name];
    ok := stage.LoadTables(manifest, files, faults.load);
    if !ok {
      return;
    }
    staged := Database(manifest.schemaVersion, Loaded(manifest.tables, files));
    ok := stage.Upgrade(upgrade, faults.upgrade);
    if ok {
      staged := upgrade(staged);
    }
  }

  /** The instance serves what the archive holds; the previous generations are gone, unless
      removing them failed. */
  ghost predicate PutBack(before: World, after: World, schema: Id, tree: Id, manifest: Manifest, metadata: Metadata,
                          files: map<string, Bytes>, upgrade: Database -> Database, faults: Faults)
    requires Complete(manifest, metadata, files)
  {
    && after.public == schema && after.current == tree
    && after.schemas == (if faults.finishDatabase then before.schemas else before.schemas - {before.public})
                        [schema := NewDatabase(manifest, files, upgrade)]
    && after.trees == (if faults.finishFiles then before.trees else before.trees - {before.current})
                      [tree := Stored(metadata.files, files)]
  }

  /** What a failed restore leaves. The old schema and the old media are in use, except when
      the switch could not be undone; whatever is in use is all of the old or all of the
      archive's, and nothing that was there is gone or changed; and what was staged is gone,
      except when removing it failed or it is taken to be in use. What is in use is there,
      unless the store lost track of its own link and removed the generation it points at. */
  ghost predicate Undone(before: World, after: World, schema: Id, tree: Id, manifest: Manifest, metadata: Metadata,
                         files: map<string, Bytes>, upgrade: Database -> Database, faults: Faults)
    requires Complete(manifest, metadata, files)
  {
    var count := |metadata.files|;
    && (after.public == before.public && after.current == before.current <==> !Stuck(faults, count))
    && (if Reaches(faults, count) && faults.rollbackDatabase then
          && after.public == schema && schema in after.schemas
          && after.schemas[schema] == NewDatabase(manifest, files, upgrade)
        else after.public == before.public)
    && (if Reaches(faults, count) && MediaStay(faults) then
          after.current == tree && (tree in after.trees ==> after.trees[tree] == Stored(metadata.files, files))
        else after.current == before.current)
    && after.schemas - {schema} == before.schemas && (schema in after.schemas <==> LeavesSchema(faults, count))
    && after.trees - {tree} == before.trees && (tree in after.trees <==> LeavesTree(faults, count))
    && (after.Standing() <==> !(Reaches(faults, count) && faults.link == LinkLost && !faults.closeFiles))
    && (after == before <==>
        !Stuck(faults, count) && !LeavesSchema(faults, count) && !LeavesTree(faults, count))
  }

  /** Whatever a failed restore leaves other than it was is owed to a step that was to undo it
      and failed. */
  lemma UndoneUnless(before: World, after: World, schema: Id, tree: Id, manifest: Manifest, metadata: Metadata,
                     files: map<string, Bytes>, upgrade: Database -> Database, faults: Faults)
    requires Complete(manifest, metadata, files)
    requires Undone(before, after, schema, tree, manifest, metadata, files, upgrade, faults)
    ensures after.public != before.public ==> faults.rollbackDatabase
    ensures after.current != before.current ==>
              faults.link == LinkLost || (faults.link == LinkSwitched && faults.rollbackFiles == BackKept)
    ensures schema in after.schemas ==> faults.rollbackDatabase || faults.dropFailed || faults.closeDatabase
    ensures tree in after.trees ==>
              faults.closeFiles || (faults.link == LinkSwitched && faults.rollbackFiles != BackDone)
    ensures (&& !faults.rollbackDatabase && !faults.dropFailed && !faults.closeDatabase && !faults.closeFiles
             && faults.link != LinkLost && faults.rollbackFiles == BackDone)
            ==> after == before
  {
    hide Complete;
    hide NewDatabase;
    hide Stored;
  }

  lemma CutShortIsUndone(before: World, left: World, after: World, schema: Id, tree: Id, manifest: Manifest,
                       metadata: Metadata, files: map<string, Bytes>, upgrade: Database -> Database, faults: Faults,
                       active: bool, renamed: bool)
    requires Complete(manifest, metadata, files) && before.Standing()
    requires schema !in before.schemas && tree !in before.trees
    requires faults.beginDatabase == BeginDone && !faults.load && !faults.upgrade
    requires var staged := before.(schemas := before.schemas[schema := NewDatabase(manifest, files, upgrade)]);
             CutShort(staged, left, schema, active, renamed, tree, metadata.files, files, faults)
    requires !Succeeds(faults, |metadata.files|)
    requires after == if active || renamed || faults.closeDatabase then left
                      else left.(schemas := left.schemas - {schema})
    ensures Undone(before, after, schema, tree, manifest, metadata, files, upgrade, faults)
  {
    hide NewDatabase;
    hide Loaded;
    hide Stored;
    hide TablePath;
    hide MediaPath;
    assert before.schemas[schema := NewDatabase(manifest, files, upgrade)] - {schema} == before.schemas;
  }

  /** An archive a restore may go on with: this build reads its format and its schema, and
      every entry is described and has its recorded bytes. */
  ghost predicate Restorable(codec: Codec, latest: int, contents: Contents) {
    && contents.manifest.Some? && contents.metadata.Some?
    && var manifest, metadata := contents.manifest.value, contents.metadata.value;
       && OLDEST_FORMAT <= manifest.format <= FORMAT && manifest.schemaVersion <= latest
       && Catalogued(manifest, metadata, contents.files) && Verified(codec, manifest, metadata, contents.files)
  }

  lemma RestorableIsComplete(codec: Codec, latest: int, contents: Contents)
    requires Restorable(codec, latest, contents)
    ensures Complete(contents.manifest.value, contents.metadata.value, contents.files)
  {
    hide Accepted;
    hide Described;
  }

  function SizeOf(record: Record): int {
    record.size
  }

  lemma {:induction false} SizesGrow(records: seq<Record>, k: nat)
    requires k <= |records| && forall record :: record in records ==> record.size >= 0
    ensures 0 <= SumBy(records[..k], SizeOf) <= SumBy(records, SizeOf)
    decreases |records|
  {
    if k < |records| {
      var front := records[..|records| - 1];
      SizesGrow(front, k);
      assert front[..k] == records[..k];
    } else {
      assert records[..k] == records;
      if k > 0 {
        SizesGrow(records[..k - 1], k - 1);
        assert records[..k - 1][..k - 1] == records[..k - 1];
      }
    }
  }

  method AddUpSizes(records: seq<Record>) returns (ok: bool)
    requires forall record :: record in records ==> record.size >= 0
    ensures ok <==> SumBy(records, SizeOf) <= MAX_SIZE
  {
    var total := 0;
    for k := 0 to |records|
      invariant total == SumBy(records[..k], SizeOf) <= MAX_SIZE
    {
      assert records[..k + 1][..k] == records[..k];
      if records[k].size > MAX_SIZE - total {
        SizesGrow(records, k + 1);
        return false;
      }
      total := total + records[k].size;
    }
    assert records[..|records|] == records;
    return true;
  }

  /** Whether anything is staged at all: only once the archive was unpacked, described what
      it carries, matched every checksum and fitted the disk. */
  ghost predicate Begins(codec: Codec, latest: int, read: Result<Contents>, roomToStage: bool) {
    && read.Ok? && Restorable(codec, latest, read.value)
    && SumBy(read.value.metadata.value.files, SizeOf) <= MAX_SIZE && roomToStage
  }

  /** Why an unpacked archive is refused: it is in an older format than this build reads; or in a
      newer one, or described but of a newer schema; or anything else is wrong with it. */
  ghost predicate RefusedFor(latest: int, contents: Contents, why: Refusal)
    requires contents.manifest.Some? && contents.metadata.Some?
  {
    var manifest, metadata := contents.manifest.value, contents.metadata.value;
    && (why == NotAnArchive <==> manifest.format < 1)
    && (why == TooNew <==>
          || manifest.format > 2
          || (&& manifest.format >= 1 && manifest.schemaVersion > latest
              && Catalogued(manifest, metadata, contents.files)))
    && why != Failed
  }

  /** Everything that is checked of an unpacked archive before staging. */
  method Check(codec: Codec, latest: int, contents: Contents, roomToStage: bool) returns (refusal: Option<Refusal>)
    requires contents.manifest.Some? && contents.metadata.Some?
    ensures refusal == None <==> Begins(codec, latest, Ok(contents), roomToStage)
    ensures refusal.Some? ==> RefusedFor(latest, contents, refusal.value)
  {
    hide Catalogued;
    hide Verified;
    hide SumBy;
    var manifest, metadata := contents.manifest.value, contents.metadata.value;
    var described := ValidateArchive(manifest, metadata, contents.files);
    if !described {
      return Some(Damaged);
    }
    if manifest.format > FORMAT {
      return Some(TooNew);
    }
    if manifest.format < OLDEST_FORMAT {
      return Some(NotAnArchive);
    }
    if manifest.schemaVersion > latest {
      return Some(TooNew);
    }
    var intact := Verify(codec, manifest, metadata, contents.files);
    if !intact {
      return Some(Damaged);
    }
    SizesKnown(manifest, metadata, contents.files);
    var fits := AddUpSizes(metadata.files);
    if !fits || !roomToStage {
      return Some(Damaged);
    }
    return None;
  }

  lemma SizesKnown(manifest: Manifest, metadata: Metadata, files: map<string, Bytes>)
    requires Catalogued(manifest, metadata, files)
    ensures forall record :: record in metadata.files ==> record.size >= 0
  {
    hide Accepted;
    hide Described;
  }

  /** Checks the whole archive before anything is staged, then restores it. Either the
      instance serves what the archive holds, or the restore fails; and a failed restore
      leaves the old instance in use, except when undoing the switch fails as well. */
  method Restore(instance: Instance, codec: Codec, entries: seq<Entry>, room: nat -> bool, broken: bool, latest: int,
                 roomToStage: bool, schema: Id, tree: Id, upgrade: Database -> Database, faults: Faults)
    returns (result: Result<Contents>)
    requires instance.world.Standing() && schema !in instance.world.schemas && tree !in instance.world.trees
    modifies instance
    ensures var read := Unpacked(codec, entries, room, broken);
            if !Begins(codec, latest, read, roomToStage) then
              && result.Err? && instance.world == old(instance.world)
              && (if read.Err? then result == read else RefusedFor(latest, read.value, result.why))
            else
              var manifest, metadata := read.value.manifest.value, read.value.metadata.value;
              && Complete(manifest, metadata, read.value.files)
              && result == (if Succeeds(faults, |metadata.files|) then read else Err(Failed))
              && (if result.Ok? then
                    PutBack(old(instance.world), instance.world, schema, tree, manifest, metadata, read.value.files,
                            upgrade, faults)
                  else
                    Undone(old(instance.world), instance.world, schema, tree, manifest, metadata, read.value.files,
                           upgrade, faults))
  {
    var read := Unpack(codec, entries, room, broken);
    hide *;
    if read.Err? {
      NothingBegins(codec, latest, read, roomToStage);
      return read;
    }
    var contents := read.value;
    UnpackedHasControls(codec, entries, room, broken);
    var refusal := Check(codec, latest, contents, roomToStage);
    if refusal.Some? {
      return Err(refusal.value);
    }
    BeginsIsComplete(codec, latest, contents, roomToStage);
    var ok := RestoreStaged(instance, schema, tree, contents.manifest.value, contents.metadata.value, contents.files,
                            upgrade, faults);
    if ok {
      return Ok(contents);
    }
    return Err(Failed);
  }

  lemma NothingBegins(codec: Codec, latest: int, read: Result<Contents>, roomToStage: bool)
    requires read.Err?
    ensures !Begins(codec, latest, read, roomToStage)
  {
  }

  lemma UnpackedHasControls(codec: Codec, entries: seq<Entry>, room: nat -> bool, broken: bool)
    ensures var read := Unpacked(codec, entries, room, broken);
            read.Ok? ==> read.value.manifest.Some? && read.value.metadata.Some?
  {
  }

  lemma BeginsIsComplete(codec: Codec, latest: int, contents: Contents, roomToStage: bool)
    requires Begins(codec, latest, Ok(contents), roomToStage)
    ensures contents.manifest.Some? && contents.metadata.Some?
    ensures Complete(contents.manifest.value, contents.metadata.value, contents.files)
  {
    RestorableIsComplete(codec, latest, contents);
  }

  // ------------------------------------------------------------- back up, then restore

  lemma {:induction false} StoredAre(records: seq<Record>, files: map<string, Bytes>)
    requires forall record :: record in records ==> MediaPath(record.name) in files
    ensures forall name :: name in Stored(records, files) <==> name in Names(records)
    ensures forall name :: name in Stored(records, files) ==>
              MediaPath(name) in files && Stored(records, files)[name] == files[MediaPath(name)]
  {
    if records != [] {
      StoredAre(records[..|records| - 1], files);
      assert Names(records) == Names(records[..|records| - 1]) + [records[|records| - 1].name];
    }
  }

  lemma NamesOfRecords(codec: Codec, source: Writer.Source, store: Writer.Store)
    requires Writer.AllHeld(source, store)
    ensures Names(Writer.MetadataOf(codec, source, store).files) == Writer.Keys(source)
  {
  }

  /** Restoring a backup puts back every table's dump and every object's bytes, and
      nothing else, and it reports what was written. */
  lemma BackupRestores(codec: Codec, source: Writer.Source, store: Writer.Store, room: nat -> bool, latest: int)
    requires codec.Faithful() && Writer.WellFormed(codec, source, store) && forall k :: room(k)
    requires source.schemaVersion <= latest
    ensures var read := Unpacked(codec, Writer.Payload(source, store) + Writer.Controls(codec, source, store), room,
                                 false);
            && read.Ok? && Restorable(codec, latest, read.value)
            && var manifest, metadata := read.value.manifest.value, read.value.metadata.value;
               && Complete(manifest, metadata, read.value.files)
               && manifest.schemaVersion == source.schemaVersion
               && Loaded(manifest.tables, read.value.files)
                  == (map table | table in source.tables :: source.dumps[table])
               && Stored(metadata.files, read.value.files)
                  == (map key | key in Writer.Keys(source) :: store[key])
               && manifest.trips == source.trips && manifest.files == |Writer.Keys(source)|
  {
    hide *;
    Writer.WrittenIsRead(codec, source, store, room);
    Writer.NamesProper(codec, source, store);
    var read := Unpacked(codec, Writer.Payload(source, store) + Writer.Controls(codec, source, store), room,
                         false).value;
    ManifestIs(source, store, codec, latest, read);
    RestorableIsComplete(codec, latest, read);
    DatabaseIs(source, store, read.files);
    FilesAre(codec, source, store, read.files);
  }

  lemma ManifestIs(source: Writer.Source, store: Writer.Store, codec: Codec, latest: int, read: Contents)
    requires Writer.AllHeld(source, store) && source.schemaVersion <= latest
    requires read.manifest == Some(Writer.ManifestOf(source))
    requires read.metadata == Some(Writer.MetadataOf(codec, source, store))
    requires Catalogued(read.manifest.value, read.metadata.value, read.files)
    requires Verified(codec, read.manifest.value, read.metadata.value, read.files)
    ensures Restorable(codec, latest, read)
    ensures read.manifest.value.tables == source.tables && read.manifest.value.schemaVersion == source.schemaVersion
    ensures read.manifest.value.trips == source.trips
  {
    hide Catalogued;
    hide Verified;
  }

  lemma DatabaseIs(source: Writer.Source, store: Writer.Store, files: map<string, Bytes>)
    requires Writer.Holds(source, store, files)
    ensures forall table :: table in source.tables ==> table in source.dumps && TablePath(table) in files
    ensures Loaded(source.tables, files) == map table | table in source.tables :: source.dumps[table]
  {
  }

  lemma {:induction false} FilesAre(codec: Codec, source: Writer.Source, store: Writer.Store, files: map<string, Bytes>)
    requires Writer.AllHeld(source, store) && Writer.Holds(source, store, files)
    requires Complete(Writer.ManifestOf(source), Writer.MetadataOf(codec, source, store), files)
    ensures forall key :: key in Writer.Keys(source) ==> key in store
    ensures Stored(Writer.MetadataOf(codec, source, store).files, files)
         == map key | key in Writer.Keys(source) :: store[key]
  {
    hide Stored;
    NamesOfRecords(codec, source, store);
    StoredAre(Writer.MetadataOf(codec, source, store).files, files);
  }
}
