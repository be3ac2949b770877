// Manifests the validator accepts and that still do not describe the backup's objects: the two ways
// in which a restore can report success without having brought the object tree back.
module BackupGaps {
  import opened Results
  import opened Text
  import opened JsonValues
  import opened BackupFiles
  import opened BackupManifests
  import opened BackupRestore

  ghost predicate UsableHeader(b: Backup) {
    && !Blank(b.backupId) && !Blank(b.platformVersion) && !Blank(b.alembicRevision)
    && ClockText(Seconds(b.startedAt)) && ClockText(Seconds(b.finishedAt))
    && Seconds(b.startedAt) < Seconds(b.finishedAt) && b.rpo > 0 && b.rto > 0
  }

  // -- An object that is not recorded --

  const DATABASE_FILES: seq<string> := ["postgres.dump", "alembic-revision.txt"]

  function OneObject(dump: Bytes, revision: Bytes, content: Bytes): Tree {
    map["postgres.dump" := dump, "alembic-revision.txt" := revision, "object-storage/a" := content]
  }

  lemma ThreeNames()
    ensures "postgres.dump" != "alembic-revision.txt" && "postgres.dump" != "object-storage/a" && "alembic-revision.txt" != "object-storage/a"
    ensures OBJECT_PREFIX + "a" == "object-storage/a" && OBJECT_PREFIX + "a " == "object-storage/a "
    ensures !(OBJECT_PREFIX <= "postgres.dump") && !(OBJECT_PREFIX <= "alembic-revision.txt")
  {
    assert "postgres.dump"[0] == 'p' && "alembic-revision.txt"[0] == 'a' && "object-storage/a"[0] == 'o' && OBJECT_PREFIX[0] == 'o';
  }

  lemma ObjectIsClean()
    ensures Clean("a") && Clean("a ") && Clean("object-storage/a") && Trimmed("object-storage/a")
  {
    hide Clean;
    ThreeNames();
    FileAtTop("a");
    FileAtTop("a ");
    ObjectPathIsClean("a");
  }

  lemma TreeIsListing(dump: Bytes, revision: Bytes, content: Bytes)
    ensures Listing(OneObject(dump, revision, content)) && forall p :: p in DATABASE_FILES ==> p in OneObject(dump, revision, content)
    ensures OneObject(dump, revision, content)["object-storage/a"] == content
  {
    hide Clean, Trimmed, BaseName;
    ThreeNames();
    ObjectIsClean();
    DatabaseFilesAreClean();
  }

  lemma DatabaseFilesHold(dump: Bytes, revision: Bytes, content: Bytes)
    requires forall p :: p in DATABASE_FILES ==> p in OneObject(dump, revision, content)
    ensures NoRepeat(DATABASE_FILES) && HarmlessPaths(OneObject(dump, revision, content), DATABASE_FILES)
  {
    hide Trimmed, Clean, BaseName, Harmless, OneObject;
    ThreeNames();
    DatabaseFilesAreClean();
  }

  lemma DatabaseFilesAreNamed(tree: Tree)
    requires (forall p :: p in DATABASE_FILES ==> p in tree) && RecordsHold(tree, DATABASE_FILES)
    ensures ComponentsHold(tree, DATABASE_FILES)
  {
    hide Trimmed, Clean, BaseName, Names, RecordsHold, RecordsOf;
    ThreeNames();
    DatabaseFilesAreClean();
    ObjectIsNamed(tree, DATABASE_FILES, DATABASE_FILES[0]);
    ObjectIsNamed(tree, DATABASE_FILES, DATABASE_FILES[1]);
  }

  lemma ObjectIsThere(tree: Tree, dump: Bytes, revision: Bytes, content: Bytes)
    requires tree == OneObject(dump, revision, content)
    ensures "a" in Objects(tree) && "a " !in Objects(tree)
  {
    hide Objects;
    ThreeNames();
    ObjectsAre(tree, "a");
    ObjectsAre(tree, "a ");
    assert (OBJECT_PREFIX + "a ")[0] == 'o' && |OBJECT_PREFIX + "a "| == 17 && |"object-storage/a"| == 16;
  }

  lemma NoObjectAmong(k: string)
    ensures OBJECT_PREFIX + k !in DATABASE_FILES
  {
    ThreeNames();
    assert OBJECT_PREFIX <= OBJECT_PREFIX + k;
  }

  // The validator does not ask whether every file is recorded: a backup with an object, and a
  // manifest of the database files alone, is accepted, and an empty bucket passes its readback.
  lemma UnrecordedObjectIsLost(dump: Bytes, revision: Bytes, content: Bytes, b: Backup)
    requires UsableHeader(b)
    ensures var tree := OneObject(dump, revision, content);
      && (forall p :: p in DATABASE_FILES ==> p in tree)
      && Listing(tree) && "a" in Objects(tree)
      && Accepted(ManifestOf(tree, DATABASE_FILES, b), Some(tree))
      && ReadsBack(RecordsOf(tree, DATABASE_FILES), map[])
  {
    hide DATABASE_FILES, OneObject, Trimmed, Clean, BaseName, RecordsHold, ComponentsHold, HarmlessPaths, IsHeader, ManifestOf, Accepted, Listing;
    hide Expected, Objects, RecordsOf;
    var tree := OneObject(dump, revision, content);
    TreeIsListing(dump, revision, content);
    DatabaseFilesHold(dump, revision, content);
    HarmlessHold(tree, DATABASE_FILES);
    DatabaseFilesAreNamed(tree);
    HeaderExactly(tree, DATABASE_FILES, b);
    AcceptedInParts(tree, DATABASE_FILES, b);
    ThreeNames();
    ObjectIsThere(tree, dump, revision, content);
    forall k ensures k !in Expected(RecordsOf(tree, DATABASE_FILES)) {
      BuiltExpects(tree, DATABASE_FILES, k);
      NoObjectAmong(k);
    }
    assert Expected(RecordsOf(tree, DATABASE_FILES)).Keys == {};
  }

  // -- A recorded path with a blank behind it --

  const BLANK_PATH: string := "object-storage/a "

  function BlankRecord(content: Bytes): Record {
    Record(Str(BLANK_PATH), Str(Sha256(content)), Int(|content|))
  }

  function BlankRecords(tree: Tree, content: Bytes): (r: seq<Record>)
    requires "postgres.dump" in tree
    ensures |r| == 2
  {
    [RecordOf(tree, "postgres.dump"), BlankRecord(content)]
  }

  function BlankManifest(tree: Tree, content: Bytes, b: Backup): Manifest
    requires "postgres.dump" in tree
  {
    ManifestOf(tree, [], b).(
      files := Files(BlankRecords(tree, content)),
      components := Components(
        {"postgres", "object_storage", "vector_index", "secret_metadata"},
        Component(Str("pg_dump_custom"), Null, Null, Null, Arr([Str("postgres.dump")])),
        Component(Str("object_mirror"), Null, Null, Null, Arr([])),
        Component(Null, Str("rebuild_from_canonical_data"), Arr([Str("postgres"), Str("object_storage")]), Null, Arr([])),
        Component(Null, Str("postgres_metadata"), Null, Bool(false), Arr([Str("postgres.dump")]))))
  }

  lemma StripsBlank(s: string)
    requires s != "" && Trimmed(s)
    ensures Strip(s + " ") == s && !Trimmed(s + " ")
  {
    assert (s + " ")[0] == s[0] && (s + " ")[|s|] == ' ';
    assert StripLeft(s + " ") == s + " ";
    assert (s + " ")[..|s|] == s;
    assert StripRight(s) == s;
  }

  lemma TrimmedDigest(content: Bytes)
    ensures IsText(Str(Sha256(content))) && Strip(Sha256(content)) == Sha256(content)
  {
    TrimmedIsStripped(Sha256(content));
  }

  lemma BlankRecordHolds(tree: Tree, content: Bytes)
    requires "object-storage/a" in tree && tree["object-storage/a"] == content
    ensures IsRecord(BlankRecord(content)) && NameOf(BlankRecord(content)) == "object-storage/a" && IsStored(BlankRecord(content), tree)
  {
    hide Parts, Strip, Trimmed;
    ObjectIsClean();
    StripsBlank("object-storage/a");
    assert BLANK_PATH == "object-storage/a" + " ";
    TrimmedDigest(content);
    assert StaysInside("object-storage/a") && Resolved("object-storage/a") == "object-storage/a";
  }

  lemma BlankRecordsHold(tree: Tree, content: Bytes)
    requires Listing(tree) && "postgres.dump" in tree && "object-storage/a" in tree && tree["object-storage/a"] == content
    ensures var records := BlankRecords(tree, content);
      && AreRecords(records) && Names(records, "postgres.dump")
      && forall i :: 0 <= i < |records| ==> IsStored(records[i], tree)
  {
    hide IsRecord, IsStored, NameOf, RecordOf, BlankRecord, Clean, Trimmed, BaseName;
    ThreeNames();
    DatabaseFilesAreClean();
    CleanRecord(tree, "postgres.dump");
    BlankRecordHolds(tree, content);
    var records := BlankRecords(tree, content);
    assert records[0] == RecordOf(tree, "postgres.dump") && records[1] == BlankRecord(content);
  }

  lemma SameHeader(tree: Tree, content: Bytes, b: Backup)
    requires "postgres.dump" in tree && UsableHeader(b)
    ensures IsHeader(BlankManifest(tree, content, b))
  {
    HeaderExactly(tree, [], b);
    hide FromIso, Strip, Blank;
    assert IsHeader(ManifestOf(tree, [], b));
  }

  lemma NoNames(records: seq<Record>)
    ensures NamesFiles(Arr([]), records, false)
  {
  }

  lemma BlankComponentsHold(tree: Tree, content: Bytes, b: Backup)
    requires "postgres.dump" in tree && Names(BlankRecords(tree, content), "postgres.dump")
    ensures AreComponents(BlankManifest(tree, content, b).components, BlankRecords(tree, content))
  {
    hide Names, NamesFiles, BlankRecords, ManifestOf;
    var m, records := BlankManifest(tree, content, b), BlankRecords(tree, content);
    OneName(m.components.postgres.files, records, "postgres.dump");
    OneName(m.components.secretMetadata.files, records, "postgres.dump");
    NoNames(records);
  }

  lemma BlankIsAccepted(tree: Tree, content: Bytes, b: Backup)
    requires Listing(tree) && "postgres.dump" in tree && "object-storage/a" in tree && tree["object-storage/a"] == content && UsableHeader(b)
    ensures Accepted(BlankManifest(tree, content, b), Some(tree))
  {
    hide AreRecords, Names, AreComponents, IsHeader, IsRecord, IsStored, BlankRecords, UsableHeader, ManifestOf;
    SameHeader(tree, content, b);
    BlankRecordsHold(tree, content);
    BlankComponentsHold(tree, content, b);
  }

  lemma BlankExpects(tree: Tree, content: Bytes)
    requires "postgres.dump" in tree
    ensures Expected(BlankRecords(tree, content)) == map["a " := BlankRecord(content)]
  {
    ThreeNames();
    var records := BlankRecords(tree, content);
    assert records[..1] == [RecordOf(tree, "postgres.dump")] && records[..1][..0] == [];
    assert !IsObject(RecordOf(tree, "postgres.dump"));
    assert Expected(records[..1]) == map[];
    RemovePrefixMeans("a ", OBJECT_PREFIX);
    assert ObjectName(BlankRecord(content)) == "a ";
  }

  lemma ObjectFileIsThere(dump: Bytes, revision: Bytes, content: Bytes)
    ensures "object-storage/a" in OneObject(dump, revision, content)
  {
  }

  lemma BlankBucketIsListing(content: Bytes)
    ensures Listing(map["a " := content])
  {
    hide Clean;
    ObjectIsClean();
  }

  // The validator strips the paths it checks and the readback does not: a manifest that records the
  // object `a` with a blank behind its path is accepted, and a bucket that holds the content under
  // `a ` instead of `a` passes its readback.
  lemma BlankPathRestoresAnotherObject(dump: Bytes, revision: Bytes, content: Bytes, b: Backup)
    requires UsableHeader(b)
    ensures var tree, bucket := OneObject(dump, revision, content), map["a " := content];
      && Listing(tree) && Listing(bucket) && "postgres.dump" in tree
      && Accepted(BlankManifest(tree, content, b), Some(tree))
      && ReadsBack(BlankRecords(tree, content), bucket)
      && "a" in Objects(tree) && "a " !in Objects(tree)
  {
    hide OneObject, BlankManifest, BlankRecords, Accepted, Listing, Expected, Objects, UsableHeader;
    var tree := OneObject(dump, revision, content);
    TreeIsListing(dump, revision, content);
    assert "postgres.dump" in DATABASE_FILES by { assert DATABASE_FILES[0] == "postgres.dump"; }
    ObjectFileIsThere(dump, revision, content);
    ObjectIsThere(tree, dump, revision, content);
    BlankIsAccepted(tree, content, b);
    BlankExpects(tree, content);
    BlankBucketIsListing(content);
  }
}
