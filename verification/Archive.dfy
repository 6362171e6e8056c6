/**
 What an archive of the whole service holds, how it is written and what a restore asks of
 it before touching anything (backend/internal/backup/archive.go and restore.go). The tar
 and gzip framing is left away: an archive is a list of named entries.
 */
module Archive {
  import opened Common
  import opened Paths

  type Bytes = seq<bv8>

  const MANIFEST: string := "manifest.json"
  const METADATA: string := "metadata.json"
  const DATABASE: string := "database/"
  const MEDIA: string := "media/"
  const FORMAT: int := 2
  const OLDEST_FORMAT: int := 1
  const MAX_CONTROL: int := 0x100_0000
  const MAX_SIZE: int := 0x7FFF_FFFF_FFFF_FFFF

  datatype Manifest = Manifest(format: int, schemaVersion: int, tables: seq<string>, trips: int, files: int)

  /** What is recorded of one payload: its name, its length and its checksum. */
  datatype Record = Record(name: string, size: int, checksum: string)

  datatype Metadata = Metadata(tables: seq<Record>, files: seq<Record>)

  datatype Entry = Entry(name: string, regular: bool, body: Bytes)

  /** The JSON of the two control entries, and the checksum of bytes as hexadecimal text. */
  datatype Codec = Codec(writeManifest: Manifest -> Bytes, readManifest: Bytes -> Option<Manifest>,
                         writeMetadata: Metadata -> Bytes, readMetadata: Bytes -> Option<Metadata>,
                         digest: Bytes -> string)
  {
    ghost predicate Faithful() {
      && (forall m :: readManifest(writeManifest(m)) == Some(m))
      && (forall m :: readMetadata(writeMetadata(m)) == Some(m))
      && (forall bytes :: IsChecksum(digest(bytes)))
    }
  }

  predicate IsHex(c: char) {
    '0' <= c <= '9' || 'a' <= c <= 'f' || 'A' <= c <= 'F'
  }

  /** Thirty-two bytes in hexadecimal. */
  predicate IsChecksum(s: string) {
    |s| == 64 && forall i :: 0 <= i < |s| ==> IsHex(s[i])
  }

  datatype Refusal = NotAnArchive | TooNew | Damaged | Failed

  datatype Result<+T> = Ok(value: T) | Err(why: Refusal)

  // ------------------------------------------------------------- unpacking

  /** What unpacking has found so far; files are the entries written to the disk. */
  datatype Contents = Contents(manifest: Option<Manifest>, metadata: Option<Metadata>, files: map<string, Bytes>,
                               total: int)

  const EMPTY: Contents := Contents(None, None, map[], 0)

  /** Whether a file would have to be a directory of another one. */
  predicate Collides(files: map<string, Bytes>, name: string) {
    exists other :: other in files && (other + "/" <= name || name + "/" <= other)
  }

  predicate IsControl(name: string) {
    name == MANIFEST || name == METADATA
  }

  function Taken(codec: Codec, contents: Contents, entry: Entry, room: bool): Result<Contents> {
    var name, body := entry.name, entry.body;
    if !entry.regular then Err(Damaged)
    else if !Accepted(name) then Err(NotAnArchive)
    else if name in contents.files || (name == MANIFEST && contents.manifest.Some?)
            || (name == METADATA && contents.metadata.Some?) then Err(Damaged)
    else if |body| > MAX_CONTROL && IsControl(name) then Err(Damaged)
    else if |body| > MAX_SIZE - contents.total || !room then Err(Damaged)
    else
      var counted := contents.(total := contents.total + |body|);
      if name == MANIFEST then
        match codec.readManifest(body)
        case None => Err(NotAnArchive)
        case Some(manifest) => Ok(counted.(manifest := Some(manifest)))
      else if name == METADATA then
        match codec.readMetadata(body)
        case None => Err(NotAnArchive)
        case Some(metadata) => Ok(counted.(metadata := Some(metadata)))
      else if Collides(contents.files, name) then Err(Failed)
      else Ok(counted.(files := contents.files[name := body]))
  }

  /** The entries one after the other; `room` says whether the disk holds the next one. */
  function TakenAll(codec: Codec, entries: seq<Entry>, room: nat -> bool): Result<Contents> {
    if entries == [] then Ok(EMPTY)
    else
      var last := |entries| - 1;
      match TakenAll(codec, entries[..last], room)
      case Err(why) => Err(why)
      case Ok(contents) => Taken(codec, contents, entries[last], room(last))
  }

  function Unpacked(codec: Codec, entries: seq<Entry>, room: nat -> bool, broken: bool): Result<Contents> {
    match TakenAll(codec, entries, room)
    case Err(why) => Err(why)
    case Ok(contents) =>
      if broken then Err(NotAnArchive)
      else if contents.manifest == None then Err(NotAnArchive)
      else if contents.metadata == None then Err(Damaged)
      else Ok(contents)
  }

  lemma {:induction false} TakenFails(codec: Codec, entries: seq<Entry>, room: nat -> bool, k: nat)
    requires k <= |entries| && TakenAll(codec, entries[..k], room).Err?
    ensures TakenAll(codec, entries, room) == TakenAll(codec, entries[..k], room)
    decreases |entries| - k
  {
    if k < |entries| {
      assert entries[..k + 1][..k] == entries[..k];
      TakenFails(codec, entries, room, k + 1);
    } else {
      assert entries[..k] == entries;
    }
  }

  method Unpack(codec: Codec, entries: seq<Entry>, room: nat -> bool, broken: bool) returns (result: Result<Contents>)
    ensures result == Unpacked(codec, entries, room, broken)
  {
    hide Taken;
    var contents := EMPTY;
    for k := 0 to |entries|
      invariant TakenAll(codec, entries[..k], room) == Ok(contents)
    {
      assert entries[..k + 1][..k] == entries[..k];
      var next := TakeEntry(codec, contents, entries[k], room(k));
      if next.Err? {
        TakenFails(codec, entries, room, k + 1);
        return next;
      }
      contents := next.value;
    }
    assert entries[..|entries|] == entries;
    if broken || contents.manifest == None {
      return Err(NotAnArchive);
    }
    if contents.metadata == None {
      return Err(Damaged);
    }
    return Ok(contents);
  }

  /** Checks one entry and writes it to the disk, or reads it when it is a control entry. */
  method TakeEntry(codec: Codec, contents: Contents, entry: Entry, room: bool) returns (result: Result<Contents>)
    ensures result == Taken(codec, contents, entry, room)
  {
    hide Accepted;
    if !entry.regular {
      return Err(Damaged);
    }
    var name := entry.name;
    if !Accepted(name) {
      return Err(NotAnArchive);
    }
    if name in contents.files || (name == MANIFEST && contents.manifest.Some?)
       || (name == METADATA && contents.metadata.Some?)
    {
      return Err(Damaged);
    }
    if |entry.body| > MAX_CONTROL && (name == MANIFEST || name == METADATA) {
      return Err(Damaged);
    }
    if |entry.body| > MAX_SIZE - contents.total {
      return Err(Damaged);
    }
    if !room {
      return Err(Damaged);
    }
    var taken := contents.(total := contents.total + |entry.body|);
    if name == MANIFEST {
      var manifest := codec.readManifest(entry.body);
      if manifest.None? {
        return Err(NotAnArchive);
      }
      return Ok(taken.(manifest := manifest));
    }
    if name == METADATA {
      var metadata := codec.readMetadata(entry.body);
      if metadata.None? {
        return Err(NotAnArchive);
      }
      return Ok(taken.(metadata := metadata));
    }
    if Collides(contents.files, name) {
      return Err(Failed);
    }
    return Ok(taken.(files := taken.files[name := entry.body]));
  }

  // ------------------------------------------------------------- what unpacking asks

  function BodySize(entry: Entry): int {
    |entry.body|
  }

  /** An entry unpacking can take by itself: a plain file under a plain name, not too large and
      readable when it is a control entry. */
  ghost predicate Proper(codec: Codec, entry: Entry) {
    && entry.regular && Accepted(entry.name)
    && (entry.name == MANIFEST ==> |entry.body| <= MAX_CONTROL && codec.readManifest(entry.body).Some?)
    && (entry.name == METADATA ==> |entry.body| <= MAX_CONTROL && codec.readMetadata(entry.body).Some?)
  }

  /** Two entries an archive can hold both of. */
  predicate Compatible(one: Entry, other: Entry) {
    one.name != other.name
    && (IsControl(one.name) || IsControl(other.name)
        || !(one.name + "/" <= other.name || other.name + "/" <= one.name))
  }

  ghost predicate EachTakeable(codec: Codec, entries: seq<Entry>, room: nat -> bool) {
    forall k: nat :: k < |entries| ==> Proper(codec, entries[k]) && room(k)
  }

  ghost predicate AllCompatible(entries: seq<Entry>) {
    forall i, j :: 0 <= i < j < |entries| ==> Compatible(entries[i], entries[j])
  }

  /** Entries that can be unpacked one after the other. */
  ghost predicate Takeable(codec: Codec, entries: seq<Entry>, room: nat -> bool) {
    EachTakeable(codec, entries, room) && AllCompatible(entries) && SumBy(entries, BodySize) <= MAX_SIZE
  }

  /** An entry was found: a control entry as it reads, any other with its bytes under its name. */
  ghost predicate Found(codec: Codec, entry: Entry, contents: Contents) {
    if entry.name == MANIFEST then contents.manifest == codec.readManifest(entry.body)
    else if entry.name == METADATA then contents.metadata == codec.readMetadata(entry.body)
    else entry.name in contents.files && contents.files[entry.name] == entry.body
  }

  predicate Carries(entries: seq<Entry>, name: string) {
    exists k :: 0 <= k < |entries| && entries[k].name == name
  }

  /** Nothing was found that is not there. */
  ghost predicate NothingElse(entries: seq<Entry>, contents: Contents) {
    && (forall name :: name in contents.files ==> !IsControl(name) && Carries(entries, name))
    && (contents.manifest.Some? ==> Carries(entries, MANIFEST))
    && (contents.metadata.Some? ==> Carries(entries, METADATA))
    && contents.total == SumBy(entries, BodySize)
  }

  /** What was found is what the archive holds. */
  ghost predicate Finds(codec: Codec, entries: seq<Entry>, contents: Contents) {
    (forall k :: 0 <= k < |entries| ==> Found(codec, entries[k], contents)) && NothingElse(entries, contents)
  }

  lemma {:induction false} SizeMore(front: seq<Entry>, last: Entry)
    ensures SumBy(front + [last], BodySize) == SumBy(front, BodySize) + |last.body|
  {
    assert (front + [last])[..|front|] == front;
  }

  lemma EachMore(codec: Codec, front: seq<Entry>, last: Entry, room: nat -> bool)
    ensures EachTakeable(codec, front + [last], room) <==>
              EachTakeable(codec, front, room) && Proper(codec, last) && room(|front|)
  {
    hide Proper;
    var entries := front + [last];
    assert forall k: nat :: k < |front| ==> entries[k] == front[k];
    assert entries[|front|] == last;
  }

  lemma CompatibleMore(front: seq<Entry>, last: Entry)
    ensures AllCompatible(front + [last]) <==>
              AllCompatible(front) && forall k :: 0 <= k < |front| ==> Compatible(front[k], last)
  {
    hide Compatible;
    var entries := front + [last];
    assert forall k :: 0 <= k < |front| ==> entries[k] == front[k];
    assert entries[|front|] == last;
  }

  lemma {:induction false} TakeableMore(codec: Codec, front: seq<Entry>, last: Entry, room: nat -> bool)
    ensures Takeable(codec, front + [last], room) <==>
              && Takeable(codec, front, room) && Proper(codec, last) && room(|front|)
              && (forall k :: 0 <= k < |front| ==> Compatible(front[k], last))
              && SumBy(front, BodySize) + |last.body| <= MAX_SIZE
  {
    hide Compatible;
    hide Proper;
    hide EachTakeable;
    hide AllCompatible;
    hide SumBy;
    EachMore(codec, front, last, room);
    CompatibleMore(front, last);
    SizeMore(front, last);
  }

  /** One more entry is taken exactly when it is proper, fits beside each entry before it and does
      not make the archive too large. */
  lemma {:induction false} OneTaken(codec: Codec, front: seq<Entry>, contents: Contents, last: Entry, room: bool)
    requires Finds(codec, front, contents)
    requires forall k :: 0 <= k < |front| ==> Proper(codec, front[k])
    ensures Taken(codec, contents, last, room).Ok? <==>
              && Proper(codec, last) && room && (forall k :: 0 <= k < |front| ==> Compatible(front[k], last))
              && SumBy(front, BodySize) + |last.body| <= MAX_SIZE
  {
    hide Accepted;
    hide SumBy;
    if Collides(contents.files, last.name) {
      var other :| other in contents.files && (other + "/" <= last.name || last.name + "/" <= other);
      var k :| 0 <= k < |front| && front[k].name == other;
    }
    assert forall k :: 0 <= k < |front| && front[k].name == MANIFEST ==> contents.manifest.Some?;
    assert forall k :: 0 <= k < |front| && front[k].name == METADATA ==> contents.metadata.Some?;
  }

  lemma TakenIs(codec: Codec, contents: Contents, entry: Entry, room: bool)
    requires Taken(codec, contents, entry, room).Ok?
    ensures var counted := contents.(total := contents.total + |entry.body|);
            Taken(codec, contents, entry, room).value
            == if entry.name == MANIFEST then counted.(manifest := codec.readManifest(entry.body))
               else if entry.name == METADATA then counted.(metadata := codec.readMetadata(entry.body))
               else counted.(files := contents.files[entry.name := entry.body])
    ensures entry.name == MANIFEST ==> codec.readManifest(entry.body).Some?
    ensures entry.name == METADATA ==> codec.readMetadata(entry.body).Some?
  {
    hide Accepted;
    hide Collides;
  }

  lemma CarriesMore(entries: seq<Entry>, last: Entry, name: string)
    ensures Carries(entries + [last], name) <==> Carries(entries, name) || last.name == name
  {
    var more := entries + [last];
    assert more[|entries|] == last && forall k :: 0 <= k < |entries| ==> more[k] == entries[k];
  }

  lemma {:induction false} NothingMore(codec: Codec, front: seq<Entry>, contents: Contents, last: Entry, room: bool)
    requires NothingElse(front, contents) && Taken(codec, contents, last, room).Ok?
    ensures NothingElse(front + [last], Taken(codec, contents, last, room).value)
  {
    TakenIs(codec, contents, last, room);
    var found := Taken(codec, contents, last, room).value;
    hide Taken;
    hide Carries;
    hide SumBy;
    SizeMore(front, last);
    CarriesMore(front, last, MANIFEST);
    CarriesMore(front, last, METADATA);
    forall name | name in found.files ensures !IsControl(name) && Carries(front + [last], name) {
      CarriesMore(front, last, name);
      assert name == last.name || name in contents.files;
    }
  }

  lemma StillFound(codec: Codec, entry: Entry, contents: Contents, last: Entry, room: bool)
    requires Found(codec, entry, contents) && Taken(codec, contents, last, room).Ok? && entry.name != last.name
    ensures Found(codec, entry, Taken(codec, contents, last, room).value)
  {
    TakenIs(codec, contents, last, room);
    hide Taken;
  }

  lemma LastFound(codec: Codec, contents: Contents, last: Entry, room: bool)
    requires Taken(codec, contents, last, room).Ok?
    ensures Found(codec, last, Taken(codec, contents, last, room).value)
  {
    TakenIs(codec, contents, last, room);
    hide Taken;
  }

  lemma {:induction false} OneFound(codec: Codec, front: seq<Entry>, contents: Contents, last: Entry, room: bool)
    requires Finds(codec, front, contents) && Taken(codec, contents, last, room).Ok?
    requires forall k :: 0 <= k < |front| ==> Compatible(front[k], last)
    ensures Finds(codec, front + [last], Taken(codec, contents, last, room).value)
  {
    hide Found;
    hide NothingElse;
    hide Taken;
    var entries, found := front + [last], Taken(codec, contents, last, room).value;
    NothingMore(codec, front, contents, last, room);
    LastFound(codec, contents, last, room);
    forall k | 0 <= k < |entries| ensures Found(codec, entries[k], found) {
      if k < |front| {
        assert Compatible(front[k], last);
        StillFound(codec, front[k], contents, last, room);
      }
    }
  }

  lemma {:induction false} TakenExactly(codec: Codec, entries: seq<Entry>, room: nat -> bool)
    ensures TakenAll(codec, entries, room).Ok? <==> Takeable(codec, entries, room)
    ensures TakenAll(codec, entries, room).Ok? ==> Finds(codec, entries, TakenAll(codec, entries, room).value)
  {
    if entries == [] {
      assert SumBy(entries, BodySize) == 0;
    } else {
      var front, last: nat := entries[..|entries| - 1], |entries| - 1;
      TakenExactly(codec, front, room);
      assert entries == front + [entries[last]];
      TakeableMore(codec, front, entries[last], room);
      hide Taken;
      hide Finds;
      if TakenAll(codec, front, room).Ok? {
        TakeableEntries(codec, front, room);
        hide Takeable;
        hide Proper;
        hide Compatible;
        hide SumBy;
        var contents := TakenAll(codec, front, room).value;
        OneTaken(codec, front, contents, entries[last], room(last));
        if Taken(codec, contents, entries[last], room(last)).Ok? {
          OneFound(codec, front, contents, entries[last], room(last));
        }
      }
    }
  }

  lemma TakeableEntries(codec: Codec, entries: seq<Entry>, room: nat -> bool)
    requires Takeable(codec, entries, room)
    ensures forall k :: 0 <= k < |entries| ==> Proper(codec, entries[k])
  {
  }

  /** An archive is unpacked if and only if it was read to its end, every entry is proper and there is
      room for it, no two entries share a name or would be a file and its directory, all together
      are not too large, and both control entries are there; and then exactly what it holds is
      found. */
  lemma {:induction false} UnpackedExactly(codec: Codec, entries: seq<Entry>, room: nat -> bool, broken: bool)
    ensures Unpacked(codec, entries, room, broken).Ok? <==>
              && !broken && Takeable(codec, entries, room)
              && Carries(entries, MANIFEST) && Carries(entries, METADATA)
    ensures Unpacked(codec, entries, room, broken).Ok? ==>
              Finds(codec, entries, Unpacked(codec, entries, room, broken).value)
  {
    hide TakenAll;
    TakenExactly(codec, entries, room);
    hide Compatible;
    hide Accepted;
    hide SumBy;
  }

  /** Why an entry is refused that comes after those in front: its name is not a plain one or it is a control
      entry that cannot be read; or it could be taken but for the names it would be a directory of,
      or a file in; or anything else is wrong with it. */
  ghost predicate RefusedFor(codec: Codec, front: seq<Entry>, last: Entry, room: bool, why: Refusal) {
    var taken := Carries(front, last.name);
    var fits := && room && SumBy(front, BodySize) + |last.body| <= MAX_SIZE
                && (IsControl(last.name) ==> |last.body| <= MAX_CONTROL);
    var unreadable := || (last.name == MANIFEST && codec.readManifest(last.body) == None)
                      || (last.name == METADATA && codec.readMetadata(last.body) == None);
    && (why == NotAnArchive <==> last.regular && (!Accepted(last.name) || (!taken && fits && unreadable)))
    && (why == Failed <==> Proper(codec, last) && !taken && fits)
    && why != TooNew
  }

  /** Why an entry is refused, told by the entries before it. */
  lemma {:induction false} OneRefused(codec: Codec, front: seq<Entry>, contents: Contents, last: Entry, room: bool)
    requires Finds(codec, front, contents) && Taken(codec, contents, last, room).Err?
    requires forall k :: 0 <= k < |front| ==> Proper(codec, front[k])
    ensures RefusedFor(codec, front, last, room, Taken(codec, contents, last, room).why)
  {
    hide Accepted;
    hide SumBy;
    hide Collides;
    assert forall k :: 0 <= k < |front| && front[k].name == MANIFEST ==> contents.manifest.Some?;
    assert forall k :: 0 <= k < |front| && front[k].name == METADATA ==> contents.metadata.Some?;
  }

  /** The k-th entry is the first that cannot be taken. */
  ghost predicate FirstRefused(codec: Codec, entries: seq<Entry>, room: nat -> bool, k: nat) {
    k < |entries| && Takeable(codec, entries[..k], room) && !Takeable(codec, entries[..k + 1], room)
  }

  lemma {:induction false} SomeRefused(codec: Codec, entries: seq<Entry>, room: nat -> bool)
    requires !Takeable(codec, entries, room)
    ensures exists k: nat :: FirstRefused(codec, entries, room, k)
  {
    if entries == [] {
      assert SumBy(entries, BodySize) == 0;
      assert false;
    }
    var last: nat := |entries| - 1;
    var front := entries[..last];
    assert entries[..last + 1] == entries;
    hide Takeable;
    if Takeable(codec, front, room) {
      assert FirstRefused(codec, entries, room, last);
    } else {
      SomeRefused(codec, front, room);
      var k: nat :| FirstRefused(codec, front, room, k);
      assert front[..k] == entries[..k] && front[..k + 1] == entries[..k + 1];
      assert FirstRefused(codec, entries, room, k);
    }
  }

  lemma {:induction false} FirstDecides(codec: Codec, entries: seq<Entry>, room: nat -> bool, k: nat)
    requires FirstRefused(codec, entries, room, k)
    ensures TakenAll(codec, entries, room).Err?
    ensures RefusedFor(codec, entries[..k], entries[k], room(k), TakenAll(codec, entries, room).why)
  {
    hide RefusedFor;
    hide Taken;
    hide Finds;
    hide Takeable;
    TakenExactly(codec, entries[..k], room);
    TakenExactly(codec, entries[..k + 1], room);
    assert entries[..k + 1][..k] == entries[..k];
    TakeableEntries(codec, entries[..k], room);
    OneRefused(codec, entries[..k], TakenAll(codec, entries[..k], room).value, entries[k], room(k));
    TakenFails(codec, entries, room, k + 1);
  }

  /** The first entry that cannot be taken decides why the archive is refused; if there is none, it is
      refused for what is missing. */
  lemma {:induction false} UnpackedRefuses(codec: Codec, entries: seq<Entry>, room: nat -> bool, broken: bool)
    ensures forall k: nat :: FirstRefused(codec, entries, room, k) ==>
              && Unpacked(codec, entries, room, broken).Err?
              && RefusedFor(codec, entries[..k], entries[k], room(k), Unpacked(codec, entries, room, broken).why)
    ensures (forall k: nat :: !FirstRefused(codec, entries, room, k)) && Unpacked(codec, entries, room, broken).Err? ==>
              Unpacked(codec, entries, room, broken).why
              == if broken || !Carries(entries, MANIFEST) then NotAnArchive else Damaged
  {
    hide RefusedFor;
    hide TakenAll;
    hide Compatible;
    hide Accepted;
    hide SumBy;
    forall k: nat | FirstRefused(codec, entries, room, k)
      ensures TakenAll(codec, entries, room).Err?
      ensures RefusedFor(codec, entries[..k], entries[k], room(k), TakenAll(codec, entries, room).why)
    {
      hide FirstRefused;
      FirstDecides(codec, entries, room, k);
    }
    if !Takeable(codec, entries, room) {
      SomeRefused(codec, entries, room);
    }
    TakenExactly(codec, entries, room);
  }

  // ------------------------------------------------------------- the catalogue

  predicate IsLower(c: char) {
    'a' <= c <= 'z'
  }

  predicate IsTableName(name: string) {
    name != "" && IsLower(name[0])
    && forall i :: 0 <= i < |name| ==> IsLower(name[i]) || '0' <= name[i] <= '9' || name[i] == '_'
  }

  function TablePath(table: string): string {
    DATABASE + table + ".csv"
  }

  function MediaPath(key: string): string {
    MEDIA + key
  }

  ghost predicate Distinct<T>(s: seq<T>) {
    forall i, j :: 0 <= i < j < |s| ==> s[i] != s[j]
  }

  function Names(records: seq<Record>): seq<string> {
    seq(|records|, i requires 0 <= i < |records| => records[i].name)
  }

  /** An entry is there with its recorded size, and its checksum can be one. */
  predicate Matches(files: map<string, Bytes>, path: string, record: Record) {
    path in files && record.size >= 0 && |files[path]| == record.size && IsChecksum(record.checksum)
  }

  ghost predicate TablesListed(manifest: Manifest, files: map<string, Bytes>) {
    Distinct(manifest.tables)
    && forall table :: table in manifest.tables ==> IsTableName(table) && TablePath(table) in files
  }

  ghost predicate TablesRecorded(manifest: Manifest, metadata: Metadata, files: map<string, Bytes>) {
    manifest.format >= 2 ==>
      Names(metadata.tables) == manifest.tables
      && forall record :: record in metadata.tables ==> Matches(files, TablePath(record.name), record)
  }

  ghost predicate FilesRecorded(metadata: Metadata, files: map<string, Bytes>) {
    Distinct(Names(metadata.files))
    && forall record :: record in metadata.files ==>
        Accepted(record.name) && Matches(files, MediaPath(record.name), record)
  }

  ghost predicate Described(manifest: Manifest, metadata: Metadata, path: string) {
    (exists table :: table in manifest.tables && path == TablePath(table))
    || exists record :: record in metadata.files && path == MediaPath(record.name)
  }

  /** The archive describes exactly what it carries. */
  ghost predicate Catalogued(manifest: Manifest, metadata: Metadata, files: map<string, Bytes>) {
    && manifest.schemaVersion >= 1 && manifest.trips >= 0 && manifest.files >= 0
    && |metadata.files| == manifest.files
    && TablesListed(manifest, files) && TablesRecorded(manifest, metadata, files) && FilesRecorded(metadata, files)
    && forall path :: path in files ==> Described(manifest, metadata, path)
  }

  method CheckTables(manifest: Manifest, files: map<string, Bytes>) returns (ok: bool, expected: set<string>)
    ensures ok <==> TablesListed(manifest, files)
    ensures ok ==> forall path :: path in expected <==>
              exists table :: table in manifest.tables && path == TablePath(table)
  {
    var tables := manifest.tables;
    var seen: set<string> := {};
    expected := {};
    for k := 0 to |tables|
      invariant forall table :: table in seen <==> table in tables[..k]
      invariant forall path :: path in expected <==> exists table :: table in tables[..k] && path == TablePath(table)
      invariant Distinct(tables[..k])
      invariant forall table :: table in tables[..k] ==> IsTableName(table) && TablePath(table) in files
    {
      var table := tables[k];
      assert tables[..k + 1] == tables[..k] + [table];
      if !IsTableName(table) || table in seen {
        if table in seen {
          var i :| 0 <= i < k && tables[i] == table;
        }
        return false, expected;
      }
      seen := seen + {table};
      if TablePath(table) !in files {
        return false, expected;
      }
      expected := expected + {TablePath(table)};
    }
    assert tables[..|tables|] == tables;
    ok := true;
  }

  method CheckTableRecords(manifest: Manifest, metadata: Metadata, files: map<string, Bytes>) returns (ok: bool)
    ensures ok <==> TablesRecorded(manifest, metadata, files)
  {
    if manifest.format < 2 {
      return true;
    }
    if |metadata.tables| != |manifest.tables| {
      assert Names(metadata.tables) != manifest.tables;
      return false;
    }
    for k := 0 to |metadata.tables|
      invariant forall i :: 0 <= i < k ==> metadata.tables[i].name == manifest.tables[i]
      invariant forall i :: 0 <= i < k ==> Matches(files, TablePath(metadata.tables[i].name), metadata.tables[i])
    {
      var record := metadata.tables[k];
      if record.name != manifest.tables[k] {
        assert Names(metadata.tables)[k] == record.name;
        return false;
      }
      if !Matches(files, TablePath(record.name), record) {
        return false;
      }
    }
    return true;
  }

  method CheckFiles(metadata: Metadata, files: map<string, Bytes>) returns (ok: bool, expected: set<string>)
    ensures ok <==> FilesRecorded(metadata, files)
    ensures ok ==>
              forall path :: path in expected <==>
                exists record :: record in metadata.files && path == MediaPath(record.name)
  {
    hide Accepted;
    var records, names := metadata.files, Names(metadata.files);
    var seen: set<string> := {};
    expected := {};
    for k := 0 to |records|
      invariant forall name :: name in seen <==> name in names[..k]
      invariant forall path :: path in expected <==>
                exists record :: record in records[..k] && path == MediaPath(record.name)
      invariant Distinct(names[..k])
      invariant forall record :: record in records[..k] ==>
                  Accepted(record.name) && Matches(files, MediaPath(record.name), record)
    {
      var record := records[k];
      assert record in records;
      assert records[..k + 1] == records[..k] + [record] && names[..k + 1] == names[..k] + [record.name];
      if !Accepted(record.name) || record.name in seen {
        if record.name in seen {
          var i :| 0 <= i < k && names[i] == record.name;
          assert names[k] == record.name;
        }
        return false, expected;
      }
      seen := seen + {record.name};
      if !Matches(files, MediaPath(record.name), record) {
        return false, expected;
      }
      expected := expected + {MediaPath(record.name)};
    }
    assert records[..|records|] == records && names[..|records|] == names;
    ok := true;
  }

  /** Accepts an archive of a format this build reads exactly when it describes what it
      carries; other formats are left to the restore to refuse. */
  method ValidateArchive(manifest: Manifest, metadata: Metadata, files: map<string, Bytes>) returns (ok: bool)
    ensures ok <==> !(OLDEST_FORMAT <= manifest.format <= FORMAT) || Catalogued(manifest, metadata, files)
  {
    hide TablesListed;
    hide TablesRecorded;
    hide FilesRecorded;
    if manifest.format < OLDEST_FORMAT || manifest.format > FORMAT {
      return true;
    }
    if manifest.schemaVersion < 1 || manifest.trips < 0 || manifest.files < 0 {
      return false;
    }
    if |metadata.files| != manifest.files {
      return false;
    }
    var listed, tables := CheckTables(manifest, files);
    if !listed {
      return false;
    }
    var recorded := CheckTableRecords(manifest, metadata, files);
    if !recorded {
      return false;
    }
    var stored, media := CheckFiles(metadata, files);
    if !stored {
      return false;
    }
    return files.Keys <= tables + media;
  }

  // What an accepted archive carries, counted.

  function TablePaths(tables: seq<string>): seq<string> {
    seq(|tables|, i requires 0 <= i < |tables| => TablePath(tables[i]))
  }

  function MediaPaths(records: seq<Record>): seq<string> {
    seq(|records|, i requires 0 <= i < |records| => MediaPath(records[i].name))
  }

  lemma {:induction false} CountDistinct(s: seq<string>, all: set<string>)
    requires Distinct(s) && forall x :: x in all <==> x in s
    ensures |all| == |s|
  {
    if s == [] {
      assert all == {};
    } else {
      assert s[0] !in s[1..];
      CountDistinct(s[1..], all - {s[0]});
    }
  }

  lemma PathsDiffer(a: string, b: string)
    ensures TablePath(a) == TablePath(b) ==> a == b
    ensures MediaPath(a) == MediaPath(b) ==> a == b
    ensures TablePath(a) != MediaPath(b)
  {
    assert TablePath(a)[|DATABASE|..] == a + ".csv" && TablePath(b)[|DATABASE|..] == b + ".csv";
    assert (a + ".csv")[..|a + ".csv"| - 4] == a && (b + ".csv")[..|b + ".csv"| - 4] == b;
    assert MediaPath(a)[|MEDIA|..] == a && MediaPath(b)[|MEDIA|..] == b;
    assert TablePath(a)[0] == 'd' && MediaPath(b)[0] == 'm';
  }

  /** An accepted archive carries one entry for each table of its manifest and one for each
      file of its metadata, and no other. */
  lemma CatalogueIsExact(manifest: Manifest, metadata: Metadata, files: map<string, Bytes>)
    requires Catalogued(manifest, metadata, files)
    ensures |files| == |manifest.tables| + manifest.files
    ensures forall path :: path in files <==> path in TablePaths(manifest.tables) + MediaPaths(metadata.files)
    ensures Distinct(TablePaths(manifest.tables) + MediaPaths(metadata.files))
  {
    hide Accepted;
    hide IsTableName;
    hide TablePath;
    hide MediaPath;
    var tables, media := TablePaths(manifest.tables), MediaPaths(metadata.files);
    var paths := tables + media;
    forall i, j | 0 <= i < j < |paths| ensures paths[i] != paths[j] {
      if j < |tables| {
        PathsDiffer(manifest.tables[i], manifest.tables[j]);
      } else if i < |tables| {
        PathsDiffer(manifest.tables[i], metadata.files[j - |tables|].name);
      } else {
        var names := Names(metadata.files);
        PathsDiffer(names[i - |tables|], names[j - |tables|]);
      }
    }
    forall path ensures path in files <==> path in paths {
      PathListed(manifest, metadata, files, path);
    }
    assert files.Keys == set path | path in paths;
    CountDistinct(paths, files.Keys);
    assert |files| == |files.Keys|;
  }

  lemma PathListed(manifest: Manifest, metadata: Metadata, files: map<string, Bytes>, path: string)
    requires Catalogued(manifest, metadata, files)
    ensures path in files <==> path in TablePaths(manifest.tables) + MediaPaths(metadata.files)
  {
    hide Accepted;
    hide IsTableName;
    hide TablePath;
    hide MediaPath;
    var tables, media := TablePaths(manifest.tables), MediaPaths(metadata.files);
    if path in files {
      assert Described(manifest, metadata, path);
      if table :| table in manifest.tables && path == TablePath(table) {
        var i :| 0 <= i < |manifest.tables| && manifest.tables[i] == table;
        assert (tables + media)[i] == path;
      } else {
        var record :| record in metadata.files && path == MediaPath(record.name);
        var i :| 0 <= i < |metadata.files| && metadata.files[i] == record;
        assert (tables + media)[|tables| + i] == path;
      }
    }
    if path in tables + media {
      var i :| 0 <= i < |tables + media| && (tables + media)[i] == path;
      if i < |tables| {
        assert manifest.tables[i] in manifest.tables;
      } else {
        assert metadata.files[i - |tables|] in metadata.files;
      }
    }
  }

  // ------------------------------------------------------------- checksums

  /** The payload has the bytes its record was made from. */
  predicate Intact(codec: Codec, files: map<string, Bytes>, path: string, record: Record) {
    path in files && |files[path]| == record.size && codec.digest(files[path]) == record.checksum
  }

  ghost predicate Verified(codec: Codec, manifest: Manifest, metadata: Metadata, files: map<string, Bytes>) {
    && (manifest.format >= 2 ==>
          forall record :: record in metadata.tables ==> Intact(codec, files, TablePath(record.name), record))
    && forall record :: record in metadata.files ==> Intact(codec, files, MediaPath(record.name), record)
  }

  method Verify(codec: Codec, manifest: Manifest, metadata: Metadata, files: map<string, Bytes>) returns (ok: bool)
    ensures ok <==> Verified(codec, manifest, metadata, files)
  {
    if manifest.format >= 2 {
      for k := 0 to |metadata.tables|
        invariant forall i :: 0 <= i < k ==>
                    Intact(codec, files, TablePath(metadata.tables[i].name), metadata.tables[i])
      {
        if !Intact(codec, files, TablePath(metadata.tables[k].name), metadata.tables[k]) {
          return false;
        }
      }
    }
    for k := 0 to |metadata.files|
      invariant forall i :: 0 <= i < k ==> Intact(codec, files, MediaPath(metadata.files[i].name), metadata.files[i])
    {
      if !Intact(codec, files, MediaPath(metadata.files[k].name), metadata.files[k]) {
        return false;
      }
    }
    return true;
  }
}
