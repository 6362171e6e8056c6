/**
 Writing an archive (Build in backend/internal/backup/archive.go), and what it has to do
 with reading one: whatever is written is accepted and holds the same bytes.
 */
module ArchiveWriter {
  import opened Common
  import opened Paths
  import opened Archive

  datatype Media = Media(key: string, size: int, checksum: string)

  /** The database as one snapshot shows it, and the objects it refers to. */
  datatype Source = Source(schemaVersion: int, tables: seq<string>, dumps: map<string, Bytes>, trips: int,
                           media: seq<Media>, additional: seq<string>)

  type Store = map<string, Bytes>

  /** The storage keys in the order they are written. */
  function Keys(source: Source): seq<string> {
    seq(|source.media|, i requires 0 <= i < |source.media| => source.media[i].key) + source.additional
  }

  /** Everything can be read, and every recorded object has its recorded bytes. */
  ghost predicate Readable(codec: Codec, source: Source, store: Store) {
    && (forall table :: table in source.tables ==> table in source.dumps)
    && (forall item :: item in source.media ==>
          item.key in store && |store[item.key]| == item.size && codec.digest(store[item.key]) == item.checksum)
    && forall key :: key in source.additional ==> key in store
  }

  function RecordOf(codec: Codec, name: string, bytes: Bytes): Record {
    Record(name, |bytes|, codec.digest(bytes))
  }

  function ManifestOf(source: Source): Manifest {
    Manifest(FORMAT, source.schemaVersion, source.tables, source.trips, |source.media| + |source.additional|)
  }

  function Records(codec: Codec, names: seq<string>, held: map<string, Bytes>): seq<Record>
    requires forall name :: name in names ==> name in held
  {
    seq(|names|, i requires 0 <= i < |names| => RecordOf(codec, names[i], held[names[i]]))
  }

  function TableEntries(names: seq<string>, held: map<string, Bytes>): seq<Entry>
    requires forall name :: name in names ==> name in held
  {
    seq(|names|, i requires 0 <= i < |names| => Entry(TablePath(names[i]), true, held[names[i]]))
  }

  function FileEntries(names: seq<string>, held: map<string, Bytes>): seq<Entry>
    requires forall name :: name in names ==> name in held
  {
    seq(|names|, i requires 0 <= i < |names| => Entry(MediaPath(names[i]), true, held[names[i]]))
  }

  ghost predicate AllHeld(source: Source, store: Store) {
    && (forall table :: table in source.tables ==> table in source.dumps)
    && forall key :: key in Keys(source) ==> key in store
  }

  function MetadataOf(codec: Codec, source: Source, store: Store): Metadata
    requires AllHeld(source, store)
  {
    Metadata(Records(codec, source.tables, source.dumps), Records(codec, Keys(source), store))
  }

  function Payload(source: Source, store: Store): seq<Entry>
    requires AllHeld(source, store)
  {
    TableEntries(source.tables, source.dumps) + FileEntries(Keys(source), store)
  }

  function Controls(codec: Codec, source: Source, store: Store): seq<Entry>
    requires AllHeld(source, store)
  {
    [Entry(METADATA, true, codec.writeMetadata(MetadataOf(codec, source, store))),
     Entry(MANIFEST, true, codec.writeManifest(ManifestOf(source)))]
  }

  method WriteTables(codec: Codec, source: Source) returns (entries: seq<Entry>, records: seq<Record>, ok: bool)
    ensures ok <==> forall table :: table in source.tables ==> table in source.dumps
    ensures ok ==> entries == TableEntries(source.tables, source.dumps)
    ensures ok ==> records == Records(codec, source.tables, source.dumps)
  {
    entries, records := [], [];
    for k := 0 to |source.tables|
      invariant forall i :: 0 <= i < k ==> source.tables[i] in source.dumps
      invariant |entries| == |records| == k
      invariant forall i :: 0 <= i < k ==>
                  entries[i] == Entry(TablePath(source.tables[i]), true, source.dumps[source.tables[i]])
      invariant forall i :: 0 <= i < k ==>
                  records[i] == RecordOf(codec, source.tables[i], source.dumps[source.tables[i]])
    {
      var table := source.tables[k];
      if table !in source.dumps {
        assert table in source.tables;
        return [], [], false;
      }
      entries := entries + [Entry(TablePath(table), true, source.dumps[table])];
      records := records + [RecordOf(codec, table, source.dumps[table])];
    }
    ok := true;
  }

  method WriteFiles(codec: Codec, source: Source, store: Store)
    returns (entries: seq<Entry>, records: seq<Record>, ok: bool)
    requires forall table :: table in source.tables ==> table in source.dumps
    ensures ok <==> Readable(codec, source, store)
    ensures ok ==> AllHeld(source, store)
    ensures ok ==> entries == FileEntries(Keys(source), store) && records == Records(codec, Keys(source), store)
  {
    entries, records := [], [];
    var media, additional := source.media, source.additional;
    ghost var keys := Keys(source);
    for k := 0 to |media|
      invariant |entries| == |records| == k
      invariant forall i :: 0 <= i < k ==>
                  media[i].key in store && |store[media[i].key]| == media[i].size
                  && codec.digest(store[media[i].key]) == media[i].checksum
      invariant forall i :: 0 <= i < k ==>
                  keys[i] in store && entries[i] == Entry(MediaPath(keys[i]), true, store[keys[i]])
                  && records[i] == RecordOf(codec, keys[i], store[keys[i]])
    {
      var item := media[k];
      assert item in source.media;
      if item.key !in store || |store[item.key]| != item.size {
        return [], [], false;
      }
      if codec.digest(store[item.key]) != item.checksum {
        return [], [], false;
      }
      entries := entries + [Entry(MediaPath(item.key), true, store[item.key])];
      records := records + [RecordOf(codec, item.key, store[item.key])];
    }
    for k := 0 to |additional|
      invariant |entries| == |records| == |media| + k
      invariant forall i :: 0 <= i < k ==> additional[i] in store
      invariant forall i :: 0 <= i < |media| + k ==>
                  keys[i] in store && entries[i] == Entry(MediaPath(keys[i]), true, store[keys[i]])
                  && records[i] == RecordOf(codec, keys[i], store[keys[i]])
    {
      var key := additional[k];
      assert keys[|media| + k] == key && key in source.additional;
      if key !in store {
        return [], [], false;
      }
      entries := entries + [Entry(MediaPath(key), true, store[key])];
      records := records + [RecordOf(codec, key, store[key])];
    }
    ok := true;
  }

  /** Writes everything or fails: nothing that cannot be read is skipped. */
  method Build(codec: Codec, source: Source, store: Store) returns (result: Result<seq<Entry>>)
    ensures result.Ok? <==> Readable(codec, source, store)
    ensures result.Ok? ==>
              AllHeld(source, store) && result.value == Payload(source, store) + Controls(codec, source, store)
  {
    var manifest := ManifestOf(source);
    var tableEntries, tables, dumped := WriteTables(codec, source);
    if !dumped {
      return Err(Failed);
    }
    var fileEntries, files, copied := WriteFiles(codec, source, store);
    if !copied {
      return Err(Failed);
    }
    var entries := tableEntries + fileEntries;
    entries := entries + [Entry(METADATA, true, codec.writeMetadata(Metadata(tables, files)))];
    entries := entries + [Entry(MANIFEST, true, codec.writeManifest(manifest))];
    return Ok(entries);
  }

  // ------------------------------------------------------------- names

  lemma {:induction false} PathParts(dir: string, name: string)
    requires '/' !in dir
    ensures Split(dir + "/" + name, '/') == [dir] + Split(name, '/')
  {
    assert dir + "/" + name == dir + ("/" + name) && ("/" + name)[1..] == name;
    SplitBody(dir, "/" + name, '/');
    assert dir + "" == dir;
  }

  lemma MediaPathAccepted(key: string)
    requires Accepted(key)
    ensures Accepted(MediaPath(key))
  {
    AcceptedIsPlain(key);
    PathParts("media", key);
    assert MediaPath(key) == "media" + "/" + key;
    AcceptedIsPlain(MediaPath(key));
  }

  lemma TablePathAccepted(table: string)
    requires IsTableName(table)
    ensures Accepted(TablePath(table)) && '/' !in table + ".csv"
  {
    var file := table + ".csv";
    SplitBody(file, "", '/');
    assert file + "" == file;
    PathParts("database", file);
    assert TablePath(table) == "database" + "/" + file;
    AcceptedIsPlain(TablePath(table));
  }

  /** Two entries that can lie side by side on a disk. */
  predicate Apart(a: string, b: string) {
    a != b && !(a + "/" <= b) && !(b + "/" <= a)
  }

  lemma TablesApart(a: string, b: string)
    requires IsTableName(a) && IsTableName(b) && a != b
    ensures Apart(TablePath(a), TablePath(b))
  {
    TablePathAccepted(a);
    TablePathAccepted(b);
    FilesApart(a + ".csv", b + ".csv");
    FilesApart(b + ".csv", a + ".csv");
    assert TablePath(a) == DATABASE + (a + ".csv") && TablePath(b) == DATABASE + (b + ".csv");
    assert (a + ".csv")[..|a|] == a && (b + ".csv")[..|b|] == b;
    assert TablePath(a)[|DATABASE|..] == a + ".csv" && TablePath(b)[|DATABASE|..] == b + ".csv";
  }

  lemma FilesApart(a: string, b: string)
    requires '/' !in b
    ensures !(DATABASE + a + "/" <= DATABASE + b)
  {
    var whole, mark := DATABASE + b, |DATABASE| + |a|;
    assert mark < |whole| ==> whole[mark] == b[|a|];
    assert (DATABASE + a + "/")[mark] == '/';
  }

  lemma MediaApart(a: string, b: string)
    requires Apart(a, b)
    ensures Apart(MediaPath(a), MediaPath(b))
  {
    assert MediaPath(a)[|MEDIA|..] == a && MediaPath(b)[|MEDIA|..] == b;
    MediaBelow(a, b);
    MediaBelow(b, a);
  }

  lemma MediaBelow(a: string, b: string)
    ensures MediaPath(a) + "/" <= MediaPath(b) ==> a + "/" <= b
  {
    if MediaPath(a) + "/" <= MediaPath(b) {
      assert MediaPath(b)[|MEDIA|..] == b && (MediaPath(a) + "/")[|MEDIA|..] == a + "/";
    }
  }

  lemma KindsApart(table: string, key: string)
    ensures Apart(TablePath(table), MediaPath(key))
    ensures !IsControl(TablePath(table)) && !IsControl(MediaPath(key))
  {
    assert TablePath(table)[0] == 'd' && MediaPath(key)[0] == 'm' && MediaPath(key)[2] == 'd';
    assert MANIFEST[2] == 'n' && METADATA[2] == 't' && MANIFEST[0] == 'm' && METADATA[0] == 'm';
  }

  // ------------------------------------------------------------- reading back what was written

  function Total(entries: seq<Entry>): nat {
    if entries == [] then 0 else Total(entries[..|entries| - 1]) + |entries[|entries| - 1].body|
  }

  function FilesOf(entries: seq<Entry>): map<string, Bytes> {
    if entries == [] then map[]
    else FilesOf(entries[..|entries| - 1])[entries[|entries| - 1].name := entries[|entries| - 1].body]
  }

  /** Payload entries that can all be unpacked beside each other. */
  ghost predicate Loadable(entries: seq<Entry>) {
    && (forall i :: 0 <= i < |entries| ==>
          entries[i].regular && Accepted(entries[i].name) && !IsControl(entries[i].name))
    && (forall i, j :: 0 <= i < j < |entries| ==> Apart(entries[i].name, entries[j].name))
    && Total(entries) <= MAX_SIZE
  }

  lemma {:induction false} FilesOfNames(entries: seq<Entry>, path: string)
    ensures path in FilesOf(entries) <==> exists i :: 0 <= i < |entries| && entries[i].name == path
  {
    if entries != [] {
      FilesOfNames(entries[..|entries| - 1], path);
    }
  }

  lemma {:induction false} FilesOfBody(entries: seq<Entry>, i: nat)
    requires i < |entries| && forall j, k :: 0 <= j < k < |entries| ==> entries[j].name != entries[k].name
    ensures entries[i].name in FilesOf(entries) && FilesOf(entries)[entries[i].name] == entries[i].body
  {
    if i < |entries| - 1 {
      FilesOfBody(entries[..|entries| - 1], i);
    }
  }

  lemma {:induction false} LoadableFront(entries: seq<Entry>)
    requires Loadable(entries) && entries != []
    ensures var front, last := entries[..|entries| - 1], entries[|entries| - 1];
            && Loadable(front) && last.regular && Accepted(last.name) && !IsControl(last.name)
            && Total(front) + |last.body| <= MAX_SIZE
            && last.name !in FilesOf(front) && !Collides(FilesOf(front), last.name)
  {
    hide Accepted;
    hide Apart;
    hide Collides;
    hide IsControl;
    NewBeside(entries[..|entries| - 1], entries[|entries| - 1].name);
  }

  lemma {:induction false} PayloadTaken(codec: Codec, entries: seq<Entry>, room: nat -> bool)
    requires Loadable(entries) && forall k :: 0 <= k < |entries| ==> room(k)
    ensures TakenAll(codec, entries, room) == Ok(Contents(None, None, FilesOf(entries), Total(entries)))
  {
    if entries != [] {
      hide Loadable;
      hide Accepted;
      hide Collides;
      hide IsControl;
      hide Taken;
      var front, last := entries[..|entries| - 1], entries[|entries| - 1];
      LoadableFront(entries);
      PayloadTaken(codec, front, room);
      EntryTaken(codec, Contents(None, None, FilesOf(front), Total(front)), last);
    }
  }

  /** A payload entry beside those taken before. */
  lemma EntryTaken(codec: Codec, contents: Contents, entry: Entry)
    requires entry.regular && Accepted(entry.name) && !IsControl(entry.name)
    requires entry.name !in contents.files && !Collides(contents.files, entry.name)
    requires contents.total + |entry.body| <= MAX_SIZE
    ensures Taken(codec, contents, entry, true)
         == Ok(contents.(files := contents.files[entry.name := entry.body], total := contents.total + |entry.body|))
  {
    hide Accepted;
    hide Collides;
  }

  lemma {:induction false} NewBeside(entries: seq<Entry>, name: string)
    requires forall i :: 0 <= i < |entries| ==> Apart(entries[i].name, name)
    ensures name !in FilesOf(entries) && !Collides(FilesOf(entries), name)
  {
    FilesOfNames(entries, name);
    forall other | other in FilesOf(entries) ensures !(other + "/" <= name) && !(name + "/" <= other) {
      FilesOfNames(entries, other);
    }
  }

  lemma ControlsTaken(codec: Codec, contents: Contents, metadata: Metadata, manifest: Manifest)
    requires codec.Faithful() && contents.manifest == None && contents.metadata == None
    requires MANIFEST !in contents.files && METADATA !in contents.files
    requires |codec.writeMetadata(metadata)| <= MAX_CONTROL && |codec.writeManifest(manifest)| <= MAX_CONTROL
    requires contents.total + |codec.writeMetadata(metadata)| + |codec.writeManifest(manifest)| <= MAX_SIZE
    ensures var one := Taken(codec, contents, Entry(METADATA, true, codec.writeMetadata(metadata)), true);
            && one.Ok?
            && var both := Taken(codec, one.value, Entry(MANIFEST, true, codec.writeManifest(manifest)), true);
               && both.Ok? && both.value.files == contents.files
               && both.value.manifest == Some(manifest) && both.value.metadata == Some(metadata)
  {
    ControlNames();
    hide Accepted;
  }

  lemma ControlNames()
    ensures Accepted(MANIFEST) && Accepted(METADATA)
  {
    SplitBody(MANIFEST, "", '/');
    SplitBody(METADATA, "", '/');
    assert MANIFEST + "" == MANIFEST && METADATA + "" == METADATA;
    AcceptedIsPlain(MANIFEST);
    AcceptedIsPlain(METADATA);
  }

  /** What the service holds to it when it is backed up: tables and objects have proper
      names of their own, no object lies inside another, and the control entries and the
      whole stay within what a restore reads. */
  ghost predicate WellFormed(codec: Codec, source: Source, store: Store) {
    && AllHeld(source, store) && source.schemaVersion >= 1 && source.trips >= 0
    && Distinct(source.tables) && (forall table :: table in source.tables ==> IsTableName(table))
    && (forall key :: key in Keys(source) ==> Accepted(key))
    && (forall i, j :: 0 <= i < j < |Keys(source)| ==> Apart(Keys(source)[i], Keys(source)[j]))
    && |codec.writeMetadata(MetadataOf(codec, source, store))| <= MAX_CONTROL
    && |codec.writeManifest(ManifestOf(source))| <= MAX_CONTROL
    && Total(Payload(source, store)) + |codec.writeMetadata(MetadataOf(codec, source, store))|
       + |codec.writeManifest(ManifestOf(source))| <= MAX_SIZE
  }

  lemma PayloadAccepted(codec: Codec, source: Source, store: Store)
    requires WellFormed(codec, source, store)
    ensures forall i :: 0 <= i < |Payload(source, store)| ==>
              var entry := Payload(source, store)[i]; entry.regular && Accepted(entry.name) && !IsControl(entry.name)
  {
    hide Accepted;
    hide Apart;
    hide IsControl;
    var payload, n := Payload(source, store), |source.tables|;
    forall i | 0 <= i < |payload|
      ensures payload[i].regular && Accepted(payload[i].name) && !IsControl(payload[i].name)
    {
      if i < n {
        TablePathAccepted(source.tables[i]);
        KindsApart(source.tables[i], "");
      } else {
        MediaPathAccepted(Keys(source)[i - n]);
        KindsApart("", Keys(source)[i - n]);
      }
    }
  }

  lemma PayloadLoadable(codec: Codec, source: Source, store: Store)
    requires WellFormed(codec, source, store)
    ensures Loadable(Payload(source, store))
  {
    hide Accepted;
    hide Apart;
    hide IsControl;
    PayloadAccepted(codec, source, store);
    var payload, n := Payload(source, store), |source.tables|;
    forall i, j | 0 <= i < j < |payload| ensures Apart(payload[i].name, payload[j].name) {
      if j < n {
        TablesApart(source.tables[i], source.tables[j]);
      } else if i < n {
        KindsApart(source.tables[i], Keys(source)[j - n]);
      } else {
        MediaApart(Keys(source)[i - n], Keys(source)[j - n]);
      }
    }
  }

  /** The unpacked payload holds every table's dump and every object's bytes, and nothing else. */
  ghost predicate Holds(source: Source, store: Store, files: map<string, Bytes>) {
    && (forall table :: table in source.tables ==>
          table in source.dumps && TablePath(table) in files && files[TablePath(table)] == source.dumps[table])
    && (forall key :: key in Keys(source) ==>
          key in store && MediaPath(key) in files && files[MediaPath(key)] == store[key])
    && forall path :: path in files ==>
         (exists table :: table in source.tables && path == TablePath(table))
         || exists key :: key in Keys(source) && path == MediaPath(key)
  }

  lemma NamesDiffer(entries: seq<Entry>)
    requires Loadable(entries)
    ensures forall i, j :: 0 <= i < j < |entries| ==> entries[i].name != entries[j].name
  {
    hide Accepted;
    hide IsControl;
    hide Total;
  }

  lemma PayloadNames(source: Source, store: Store, path: string)
    requires AllHeld(source, store) && path in FilesOf(Payload(source, store))
    ensures (exists table :: table in source.tables && path == TablePath(table))
            || exists key :: key in Keys(source) && path == MediaPath(key)
  {
    hide FilesOf;
    var payload, n := Payload(source, store), |source.tables|;
    FilesOfNames(payload, path);
    var i :| 0 <= i < |payload| && payload[i].name == path;
    if i < n {
      assert source.tables[i] in source.tables;
    } else {
      assert Keys(source)[i - n] in Keys(source);
    }
  }

  lemma TableHeld(source: Source, store: Store, i: nat)
    requires AllHeld(source, store) && Loadable(Payload(source, store)) && i < |source.tables|
    ensures var files, table := FilesOf(Payload(source, store)), source.tables[i];
            TablePath(table) in files && files[TablePath(table)] == source.dumps[table]
  {
    NamesDiffer(Payload(source, store));
    hide Loadable;
    hide FilesOf;
    FilesOfBody(Payload(source, store), i);
  }

  lemma FileHeld(source: Source, store: Store, i: nat)
    requires AllHeld(source, store) && Loadable(Payload(source, store)) && i < |Keys(source)|
    ensures var files, key := FilesOf(Payload(source, store)), Keys(source)[i];
            MediaPath(key) in files && files[MediaPath(key)] == store[key]
  {
    var payload, n := Payload(source, store), |source.tables|;
    NamesDiffer(payload);
    hide Loadable;
    hide FilesOf;
    assert payload[n + i] == Entry(MediaPath(Keys(source)[i]), true, store[Keys(source)[i]]);
    FilesOfBody(payload, n + i);
  }

  lemma PayloadHolds(source: Source, store: Store)
    requires AllHeld(source, store) && Loadable(Payload(source, store))
    ensures Holds(source, store, FilesOf(Payload(source, store)))
  {
    hide FilesOf;
    hide Loadable;
    hide Payload;
    hide TablePath;
    hide MediaPath;
    var files := FilesOf(Payload(source, store));
    forall table | table in source.tables
      ensures TablePath(table) in files && files[TablePath(table)] == source.dumps[table]
    {
      var i :| 0 <= i < |source.tables| && source.tables[i] == table;
      TableHeld(source, store, i);
    }
    forall key | key in Keys(source) ensures MediaPath(key) in files && files[MediaPath(key)] == store[key] {
      var i :| 0 <= i < |Keys(source)| && Keys(source)[i] == key;
      FileHeld(source, store, i);
    }
    forall path | path in files
      ensures (exists table :: table in source.tables && path == TablePath(table))
              || exists key :: key in Keys(source) && path == MediaPath(key)
    {
      PayloadNames(source, store, path);
    }
  }

  lemma TableRecordsFit(codec: Codec, source: Source, store: Store, files: map<string, Bytes>)
    requires codec.Faithful() && AllHeld(source, store) && Holds(source, store, files)
    ensures var records := Records(codec, source.tables, source.dumps);
            Names(records) == source.tables
            && forall record :: record in records ==>
                 Matches(files, TablePath(record.name), record) && Intact(codec, files, TablePath(record.name), record)
  {
    var records := Records(codec, source.tables, source.dumps);
    assert Names(records) == source.tables;
    forall record | record in records
      ensures Matches(files, TablePath(record.name), record) && Intact(codec, files, TablePath(record.name), record)
    {
      var i :| 0 <= i < |records| && records[i] == record;
      assert source.tables[i] in source.tables;
    }
  }

  lemma FileRecordsFit(codec: Codec, source: Source, store: Store, files: map<string, Bytes>)
    requires codec.Faithful() && AllHeld(source, store) && Holds(source, store, files)
    ensures var records := Records(codec, Keys(source), store);
            Names(records) == Keys(source)
            && forall record :: record in records ==>
                 record.name in Keys(source)
                 && Matches(files, MediaPath(record.name), record)
                 && Intact(codec, files, MediaPath(record.name), record)
  {
    hide Keys;
    var records := Records(codec, Keys(source), store);
    assert Names(records) == Keys(source);
    forall record | record in records
      ensures record.name in Keys(source)
      ensures Matches(files, MediaPath(record.name), record) && Intact(codec, files, MediaPath(record.name), record)
    {
      var i :| 0 <= i < |records| && records[i] == record;
      assert Keys(source)[i] in Keys(source);
    }
  }

  lemma HeldIsDescribed(codec: Codec, source: Source, store: Store, files: map<string, Bytes>, path: string)
    requires AllHeld(source, store) && Holds(source, store, files) && path in files
    ensures Described(ManifestOf(source), MetadataOf(codec, source, store), path)
  {
    hide Keys;
    if key :| key in Keys(source) && path == MediaPath(key) {
      var i :| 0 <= i < |Keys(source)| && Keys(source)[i] == key;
      var records := MetadataOf(codec, source, store).files;
      assert records[i] in records && records[i].name == key;
    }
  }

  /** What is held is described exactly, and every checksum fits. */
  lemma HeldIsCatalogued(codec: Codec, source: Source, store: Store, files: map<string, Bytes>)
    requires codec.Faithful() && WellFormed(codec, source, store) && Holds(source, store, files)
    ensures Catalogued(ManifestOf(source), MetadataOf(codec, source, store), files)
    ensures Verified(codec, ManifestOf(source), MetadataOf(codec, source, store), files)
  {
    hide *;
    NamesProper(codec, source, store);
    TablesFit(codec, source, store, files);
    FilesFit(codec, source, store, files);
    forall path | path in files ensures Described(ManifestOf(source), MetadataOf(codec, source, store), path) {
      HeldIsDescribed(codec, source, store, files, path);
    }
    AllFit(ManifestOf(source), MetadataOf(codec, source, store), files, codec);
  }

  lemma TablesFit(codec: Codec, source: Source, store: Store, files: map<string, Bytes>)
    requires codec.Faithful() && AllHeld(source, store) && Holds(source, store, files)
    requires Distinct(source.tables) && forall table :: table in source.tables ==> IsTableName(table)
    ensures TablesListed(ManifestOf(source), files)
    ensures TablesRecorded(ManifestOf(source), MetadataOf(codec, source, store), files)
    ensures forall record :: record in MetadataOf(codec, source, store).tables ==>
              Intact(codec, files, TablePath(record.name), record)
  {
    TableRecordsFit(codec, source, store, files);
    hide Codec.Faithful;
    hide AllHeld;
    hide IsTableName;
    hide Records;
    hide Matches;
    hide Intact;
  }

  lemma FilesFit(codec: Codec, source: Source, store: Store, files: map<string, Bytes>)
    requires codec.Faithful() && AllHeld(source, store) && Holds(source, store, files)
    requires Distinct(Keys(source)) && forall key :: key in Keys(source) ==> Accepted(key)
    ensures FilesRecorded(MetadataOf(codec, source, store), files)
    ensures |MetadataOf(codec, source, store).files| == |Keys(source)|
    ensures forall record :: record in MetadataOf(codec, source, store).files ==>
              Intact(codec, files, MediaPath(record.name), record)
  {
    FileRecordsFit(codec, source, store, files);
    hide Codec.Faithful;
    hide AllHeld;
    hide Keys;
    hide Accepted;
    hide Matches;
    hide Intact;
    hide Holds;
  }

  lemma AllFit(manifest: Manifest, metadata: Metadata, files: map<string, Bytes>, codec: Codec)
    requires manifest.schemaVersion >= 1 && manifest.trips >= 0 && manifest.files >= 0
    requires |metadata.files| == manifest.files
    requires TablesListed(manifest, files) && TablesRecorded(manifest, metadata, files)
              && FilesRecorded(metadata, files)
    requires forall path :: path in files ==> Described(manifest, metadata, path)
    requires forall record :: record in metadata.tables ==> Intact(codec, files, TablePath(record.name), record)
    requires forall record :: record in metadata.files ==> Intact(codec, files, MediaPath(record.name), record)
    ensures Catalogued(manifest, metadata, files) && Verified(codec, manifest, metadata, files)
  {
  }

  lemma NamesProper(codec: Codec, source: Source, store: Store)
    requires WellFormed(codec, source, store)
    ensures AllHeld(source, store) && source.schemaVersion >= 1 && source.trips >= 0
    ensures Distinct(source.tables) && forall table :: table in source.tables ==> IsTableName(table)
    ensures Distinct(Keys(source)) && |Keys(source)| == |source.media| + |source.additional|
    ensures forall key :: key in Keys(source) ==> Accepted(key)
    ensures ManifestOf(source).schemaVersion >= 1 && ManifestOf(source).trips >= 0
    ensures ManifestOf(source).files == |Keys(source)|
  {
    hide Accepted;
    forall i, j | 0 <= i < j < |Keys(source)| ensures Keys(source)[i] != Keys(source)[j] {
      assert Apart(Keys(source)[i], Keys(source)[j]);
    }
  }

  lemma {:induction false} TakenOne(codec: Codec, payload: seq<Entry>, one: Entry, room: nat -> bool)
    requires TakenAll(codec, payload, room).Ok? && forall k :: room(k)
    ensures TakenAll(codec, payload + [one], room) == Taken(codec, TakenAll(codec, payload, room).value, one, true)
  {
    hide Taken;
    assert (payload + [one])[..|payload|] == payload;
  }

  lemma {:induction false} TakenTwo(codec: Codec, payload: seq<Entry>, one: Entry, two: Entry, room: nat -> bool)
    requires TakenAll(codec, payload, room).Ok? && forall k :: room(k)
    requires Taken(codec, TakenAll(codec, payload, room).value, one, true).Ok?
    ensures TakenAll(codec, payload + [one, two], room)
         == Taken(codec, Taken(codec, TakenAll(codec, payload, room).value, one, true).value, two, true)
  {
    hide Taken;
    hide TakenAll;
    assert payload + [one, two] == payload + [one] + [two];
    TakenOne(codec, payload, one, room);
    TakenOne(codec, payload + [one], two, room);
  }

  /** Everything that is written of a well-formed service is unpacked and accepted again,
      with its catalogue, its checksums and exactly the same bytes. */
  lemma WrittenIsRead(codec: Codec, source: Source, store: Store, room: nat -> bool)
    requires codec.Faithful() && WellFormed(codec, source, store) && forall k :: room(k)
    ensures var entries := Payload(source, store) + Controls(codec, source, store);
            var read := Unpacked(codec, entries, room, false);
            && read.Ok? && read.value.manifest == Some(ManifestOf(source))
            && read.value.metadata == Some(MetadataOf(codec, source, store))
            && Holds(source, store, read.value.files)
            && Catalogued(read.value.manifest.value, read.value.metadata.value, read.value.files)
            && Verified(codec, read.value.manifest.value, read.value.metadata.value, read.value.files)
  {
    hide Accepted;
    hide Taken;
    var payload, controls := Payload(source, store), Controls(codec, source, store);
    var entries := payload + controls;
    PayloadLoadable(codec, source, store);
    PayloadTaken(codec, payload, room);
    PayloadHolds(source, store);
    HeldIsCatalogued(codec, source, store, FilesOf(payload));
    var contents := Contents(None, None, FilesOf(payload), Total(payload));
    NotControls(payload);
    ControlsTaken(codec, contents, MetadataOf(codec, source, store), ManifestOf(source));
    TakenTwo(codec, payload, controls[0], controls[1], room);
    assert payload + [controls[0], controls[1]] == entries;
  }

  lemma {:induction false} NotControls(entries: seq<Entry>)
    requires Loadable(entries)
    ensures MANIFEST !in FilesOf(entries) && METADATA !in FilesOf(entries)
  {
    hide Accepted;
    FilesOfNames(entries, MANIFEST);
    FilesOfNames(entries, METADATA);
  }
}
