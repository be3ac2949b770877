// The backup manifest: building it from a directory, and validating any manifest against one.
module BackupManifests {
  import opened Results
  import opened Text
  import opened JsonValues
  import opened BackupFiles

  // -- Manifests --

  // A missing key reads as `Null`, as with `dict.get`.
  datatype Record = NoRecord | Record(path: Json, sha256: Json, sizeBytes: Json)

  datatype Files = NoList | Files(records: seq<Record>)

  datatype Component = NoComponent | Component(strategy: Json, recoveryMode: Json, canonicalSources: Json, secretValuesIncluded: Json, files: Json)

  datatype Components =
    | NoComponents
    | Components(names: set<string>, postgres: Component, objectStorage: Component, vectorIndex: Component, secretMetadata: Component)

  datatype Manifest = Manifest(
    featureKey: Json,
    schemaVersion: Json,
    backupId: Json,
    platformVersion: Json,
    alembicRevision: Json,
    startedAt: Json,
    finishedAt: Json,
    rpoTargetMinutes: Json,
    rtoTargetMinutes: Json,
    files: Files,
    components: Components)

  const MANIFEST_NAME: string := "backup-manifest.json"
  const OBJECT_PREFIX: string := "object-storage/"

  // -- Times --

  // A parsed timestamp: whether it names a timezone, and its instant in microseconds.
  datatype Moment = Moment(aware: bool, micros: int)

  // `datetime.fromisoformat` after the `Z` replacement, and the text `_iso_z` writes for a whole
  // second. What the parser makes of other texts is left open.
  const FromIso: string -> Option<Moment>
  const IsoText: int -> string

  // The parser reads back what `_iso_z` writes.
  ghost predicate ClockText(seconds: int) {
    FromIso(IsoText(seconds)) == Some(Moment(true, seconds * 1_000_000)) && IsoText(seconds) != "" && Trimmed(IsoText(seconds))
  }

  // `replace(microsecond=0)`
  function Seconds(micros: int): int {
    micros / 1_000_000
  }

  function IsoZ(micros: int): string {
    IsoText(Seconds(micros))
  }

  // -- Building --

  function RecordOf(tree: Tree, path: string): Record
    requires path in tree
  {
    Record(Str(path), Str(Sha256(tree[path])), Int(|tree[path]|))
  }

  // The listed paths that are files and not a manifest.
  function Recorded(tree: Tree, listing: seq<string>): (r: seq<string>)
    ensures forall p :: p in r ==> p in tree
  {
    if listing == [] then []
    else
      var last := listing[|listing| - 1];
      Recorded(tree, listing[..|listing| - 1]) + if last in tree && BaseName(last) != MANIFEST_NAME then [last] else []
  }

  function RecordsOf(tree: Tree, paths: seq<string>): (r: seq<Record>)
    requires forall p :: p in paths ==> p in tree
    ensures |r| == |paths|
  {
    seq(|paths|, i requires 0 <= i < |paths| => RecordOf(tree, paths[i]))
  }

  function ObjectPaths(paths: seq<string>): (r: seq<Json>) {
    if paths == [] then []
    else
      var last := paths[|paths| - 1];
      ObjectPaths(paths[..|paths| - 1]) + if OBJECT_PREFIX <= last then [Str(last)] else []
  }

  datatype Backup = Backup(backupId: string, platformVersion: string, alembicRevision: string, startedAt: int, finishedAt: int, rpo: int, rto: int)

  function ManifestOf(tree: Tree, paths: seq<string>, b: Backup): Manifest
    requires forall p :: p in paths ==> p in tree
  {
    Manifest(
      Str("operations.backup_manifest"), Int(1),
      Str(b.backupId), Str(b.platformVersion), Str(b.alembicRevision),
      Str(IsoZ(b.startedAt)), Str(IsoZ(b.finishedAt)), Int(b.rpo), Int(b.rto),
      Files(RecordsOf(tree, paths)),
      Components(
        {"postgres", "object_storage", "vector_index", "secret_metadata"},
        Component(Str("pg_dump_custom"), Null, Null, Null, Arr([Str("postgres.dump"), Str("alembic-revision.txt")])),
        Component(Str("object_mirror"), Null, Null, Null, Arr(ObjectPaths(paths))),
        Component(Null, Str("rebuild_from_canonical_data"), Arr([Str("postgres"), Str("object_storage")]), Null, Arr([])),
        Component(Null, Str("postgres_metadata"), Null, Bool(false), Arr([Str("postgres.dump")]))))
  }

  // The loop of `_build_manifest` over everything below the output directory.
  method ListFiles(tree: Tree, listing: seq<string>) returns (files: seq<Record>)
    ensures files == RecordsOf(tree, Recorded(tree, listing))
  {
    files := [];
    for i := 0 to |listing|
      invariant files == RecordsOf(tree, Recorded(tree, listing[..i]))
    {
      var path := listing[i];
      assert listing[..i + 1][..i] == listing[..i];
      if path in tree && BaseName(path) != MANIFEST_NAME {
        var digest := Sha256Of(tree[path]);
        files := files + [Record(Str(path), Str(digest), Int(|tree[path]|))];
      }
    }
    assert listing[..|listing|] == listing;
  }

  method ObjectFiles(ghost tree: Tree, ghost paths: seq<string>, files: seq<Record>) returns (objectFiles: seq<Json>)
    requires (forall p :: p in paths ==> p in tree) && files == RecordsOf(tree, paths)
    ensures objectFiles == ObjectPaths(paths)
  {
    objectFiles := [];
    for i := 0 to |files|
      invariant objectFiles == ObjectPaths(paths[..i])
    {
      assert paths[..i + 1][..i] == paths[..i];
      assert files[i] == RecordOf(tree, paths[i]);
      if OBJECT_PREFIX <= files[i].path.s {
        objectFiles := objectFiles + [files[i].path];
      }
    }
    assert paths[..|paths|] == paths;
  }

  // The text names the instant, in microseconds, with its timezone.
  predicate IsInstant(v: Json, micros: int) {
    v.Str? && FromIso(v.s) == Some(Moment(true, micros))
  }

  // `_build_manifest`, given the sorted listing of everything below the output directory.
  method BuildManifest(tree: Tree, listing: seq<string>, b: Backup) returns (m: Manifest)
    ensures m == ManifestOf(tree, Recorded(tree, listing), b)
    ensures m.featureKey == Str("operations.backup_manifest") && m.schemaVersion == Int(1)
    ensures m.backupId == Str(b.backupId) && m.platformVersion == Str(b.platformVersion) && m.alembicRevision == Str(b.alembicRevision)
    ensures ClockText(b.startedAt / 1_000_000) ==> IsInstant(m.startedAt, b.startedAt / 1_000_000 * 1_000_000)
    ensures ClockText(b.finishedAt / 1_000_000) ==> IsInstant(m.finishedAt, b.finishedAt / 1_000_000 * 1_000_000)
    ensures m.rpoTargetMinutes == Int(b.rpo) && m.rtoTargetMinutes == Int(b.rto)
    ensures m.files.Files? && |m.files.records| == |Recorded(tree, listing)|
    ensures forall i :: 0 <= i < |m.files.records| ==>
      var p := Recorded(tree, listing)[i];
      m.files.records[i] == Record(Str(p), Str(Sha256(tree[p])), Int(|tree[p]|))
  {
    var files := ListFiles(tree, listing);
    var objectFiles := ObjectFiles(tree, Recorded(tree, listing), files);
    m := Manifest(
      Str("operations.backup_manifest"), Int(1),
      Str(b.backupId), Str(b.platformVersion), Str(b.alembicRevision),
      Str(IsoZ(b.startedAt)), Str(IsoZ(b.finishedAt)), Int(b.rpo), Int(b.rto),
      Files(files),
      Components(
        {"postgres", "object_storage", "vector_index", "secret_metadata"},
        Component(Str("pg_dump_custom"), Null, Null, Null, Arr([Str("postgres.dump"), Str("alembic-revision.txt")])),
        Component(Str("object_mirror"), Null, Null, Null, Arr(objectFiles)),
        Component(Null, Str("rebuild_from_canonical_data"), Arr([Str("postgres"), Str("object_storage")]), Null, Arr([])),
        Component(Null, Str("postgres_metadata"), Null, Bool(false), Arr([Str("postgres.dump")]))));
  }

  // -- What a valid manifest is --

  predicate IsText(v: Json) {
    v.Str? && !Blank(v.s)
  }

  predicate IsPositive(v: Json) {
    (v.Int? && v.n > 0) || (v.Float? && v.r > 0.0)
  }

  // Python's `== 1`
  predicate EqualsOne(v: Json) {
    v == Int(1) || v == Float(1.0) || v == Bool(true)
  }

  predicate IsTime(v: Json) {
    IsText(v) && FromIso(Strip(v.s)).Some? && FromIso(Strip(v.s)).value.aware
  }

  // A size: a non-negative `int`, of which Python's booleans are two.
  predicate IsSize(v: Json) {
    v.Bool? || (v.Int? && v.n >= 0)
  }

  function SizeOf(v: Json): int {
    if v.Int? then v.n else if v == Bool(true) then 1 else 0
  }

  predicate IsHeader(m: Manifest) {
    && m.featureKey == Str("operations.backup_manifest") && EqualsOne(m.schemaVersion)
    && IsText(m.backupId) && IsText(m.platformVersion) && IsText(m.alembicRevision)
    && IsTime(m.startedAt) && IsTime(m.finishedAt)
    && FromIso(Strip(m.startedAt.s)).value.micros < FromIso(Strip(m.finishedAt.s)).value.micros
    && IsPositive(m.rpoTargetMinutes) && IsPositive(m.rtoTargetMinutes)
  }

  predicate IsRecord(r: Record) {
    && r.Record? && IsText(r.path) && StaysInside(Strip(r.path.s))
    && IsText(r.sha256) && IsSha256(Strip(r.sha256.s)) && IsSize(r.sizeBytes)
  }

  // The name under which a record is known: its path without surrounding whitespace.
  function NameOf(r: Record): string
    requires IsRecord(r)
  {
    Strip(r.path.s)
  }

  ghost predicate AreRecords(records: seq<Record>) {
    && (forall i :: 0 <= i < |records| ==> IsRecord(records[i]))
    && forall i, j :: 0 <= i < j < |records| ==> NameOf(records[i]) != NameOf(records[j])
  }

  ghost predicate Names(records: seq<Record>, name: string) {
    exists i :: 0 <= i < |records| && IsRecord(records[i]) && NameOf(records[i]) == name
  }

  // A list of distinct known names.
  ghost predicate NamesFiles(v: Json, records: seq<Record>, nonEmpty: bool) {
    && v.Arr? && (nonEmpty ==> v.items != [])
    && (forall i :: 0 <= i < |v.items| ==> v.items[i].Str? && Names(records, v.items[i].s))
    && forall i, j :: 0 <= i < j < |v.items| ==> v.items[i] != v.items[j]
  }

  ghost predicate AreComponents(c: Components, records: seq<Record>) {
    && c.Components? && c.names == {"postgres", "object_storage", "vector_index", "secret_metadata"}
    && c.postgres.Component? && c.postgres.strategy == Str("pg_dump_custom") && NamesFiles(c.postgres.files, records, true)
    && c.objectStorage.Component? && c.objectStorage.strategy == Str("object_mirror") && NamesFiles(c.objectStorage.files, records, false)
    && c.vectorIndex.Component? && c.vectorIndex.recoveryMode == Str("rebuild_from_canonical_data")
    && c.vectorIndex.canonicalSources == Arr([Str("postgres"), Str("object_storage")]) && c.vectorIndex.files == Arr([])
    && c.secretMetadata.Component? && c.secretMetadata.recoveryMode == Str("postgres_metadata")
    && c.secretMetadata.secretValuesIncluded == Bool(false) && NamesFiles(c.secretMetadata.files, records, true)
  }

  // The recorded file is in the directory, with the recorded size and digest.
  predicate IsStored(r: Record, tree: Tree)
    requires IsRecord(r)
  {
    var path := Resolved(NameOf(r));
    path != "" && path in tree && |tree[path]| == SizeOf(r.sizeBytes) && r.sha256 == Str(Sha256(tree[path]))
  }

  ghost predicate Accepted(m: Manifest, root: Option<Tree>) {
    && IsHeader(m)
    && m.files.Files? && m.files.records != [] && AreRecords(m.files.records)
    && AreComponents(m.components, m.files.records)
    && (root.Some? ==> forall i :: 0 <= i < |m.files.records| ==> IsStored(m.files.records[i], root.value))
  }

  // -- The validator --

  datatype Rejection = BadHeader | BadFiles | BadComponents | BadContent

  datatype Report = Report(backupId: string, alembicRevision: string, fileCount: nat)

  lemma NoRecords()
    ensures AreRecords([]) && forall n :: !Names([], n)
  {
  }

  lemma OneMoreRecord(records: seq<Record>, i: nat)
    requires i < |records| && AreRecords(records[..i])
    ensures AreRecords(records[..i + 1]) <==> IsRecord(records[i]) && !Names(records[..i], NameOf(records[i]))
    ensures AreRecords(records) ==> AreRecords(records[..i + 1])
    ensures IsRecord(records[i]) ==> forall n :: Names(records[..i + 1], n) <==> Names(records[..i], n) || n == NameOf(records[i])
  {
    hide IsRecord, NameOf;
    var old', now := records[..i], records[..i + 1];
    assert now == old' + [records[i]];
    if IsRecord(records[i]) {
      forall n ensures Names(now, n) <==> Names(old', n) || n == NameOf(records[i]) {
        if Names(old', n) {
          var j :| 0 <= j < i && IsRecord(old'[j]) && NameOf(old'[j]) == n;
          assert now[j] == old'[j];
        }
        if n == NameOf(records[i]) {
          assert now[i] == records[i];
        }
      }
    }
  }

  // `_require_text`
  method RequireText(v: Json) returns (r: Option<string>)
    ensures r == if v.Str? && Strip(v.s) != "" then Some(Strip(v.s)) else None
  {
    if !v.Str? || Strip(v.s) == "" { return None; }
    return Some(Strip(v.s));
  }

  // `_parse_timestamp`
  method ParseTimestamp(text: string) returns (r: Option<int>)
    ensures r == if FromIso(text).Some? && FromIso(text).value.aware then Some(FromIso(text).value.micros) else None
  {
    var parsed := FromIso(text);
    if parsed.None? || !parsed.value.aware { return None; }
    return Some(parsed.value.micros);
  }

  // The checks from the feature key to the targets, in order.
  method CheckHeader(m: Manifest) returns (ok: bool)
    ensures ok <==> IsHeader(m)
  {
    hide Strip;
    if m.featureKey != Str("operations.backup_manifest") { return false; }
    if !EqualsOne(m.schemaVersion) { return false; }
    var backupId := RequireText(m.backupId);
    var platformVersion := RequireText(m.platformVersion);
    var revision := RequireText(m.alembicRevision);
    if backupId.None? || platformVersion.None? || revision.None? { return false; }
    var startedText := RequireText(m.startedAt);
    if startedText.None? { return false; }
    var started := ParseTimestamp(startedText.value);
    if started.None? { return false; }
    var finishedText := RequireText(m.finishedAt);
    if finishedText.None? { return false; }
    var finished := ParseTimestamp(finishedText.value);
    if finished.None? { return false; }
    if finished.value <= started.value { return false; }
    return IsPositive(m.rpoTargetMinutes) && IsPositive(m.rtoTargetMinutes);
  }

  lemma HeaderIsTexts(m: Manifest)
    ensures IsHeader(m) ==> m.backupId.Str? && Strip(m.backupId.s) != "" && m.alembicRevision.Str? && Strip(m.alembicRevision.s) != ""
  {
  }

  method CheckRecords(records: seq<Record>) returns (ok: bool, names: set<string>)
    ensures ok <==> AreRecords(records)
    ensures ok ==> |names| == |records| && forall n :: n in names <==> Names(records, n)
  {
    hide IsRecord, NameOf, Names, AreRecords;
    names := {};
    NoRecords();
    for i := 0 to |records|
      invariant AreRecords(records[..i])
      invariant forall n :: n in names <==> Names(records[..i], n)
      invariant |names| == i
    {
      OneMoreRecord(records, i);
      if !IsRecord(records[i]) || NameOf(records[i]) in names {
        return false, names;
      }
      names := names + {NameOf(records[i])};
    }
    assert records[..|records|] == records;
    return true, names;
  }

  // `_validate_component_files`
  method CheckComponentFiles(v: Json, names: set<string>, ghost records: seq<Record>, nonEmpty: bool) returns (ok: bool)
    requires forall n :: n in names <==> Names(records, n)
    ensures ok <==> NamesFiles(v, records, nonEmpty)
  {
    hide Names;
    if !v.Arr? || (nonEmpty && v.items == []) {
      return false;
    }
    var seen: set<Json> := {};
    for i := 0 to |v.items|
      invariant forall x :: x in seen <==> exists j :: 0 <= j < i && v.items[j] == x
      invariant forall j :: 0 <= j < i ==> v.items[j].Str? && Names(records, v.items[j].s)
      invariant forall j, k :: 0 <= j < k < i ==> v.items[j] != v.items[k]
    {
      var value := v.items[i];
      if value in seen || !value.Str? || value.s !in names {
        return false;
      }
      seen := seen + {value};
    }
    return true;
  }

  method CheckContents(records: seq<Record>, tree: Tree) returns (ok: bool)
    requires forall i :: 0 <= i < |records| ==> IsRecord(records[i])
    ensures ok <==> forall i :: 0 <= i < |records| ==> IsStored(records[i], tree)
  {
    hide IsRecord, IsStored;
    for i := 0 to |records|
      invariant forall j :: 0 <= j < i ==> IsStored(records[j], tree)
    {
      if !IsStored(records[i], tree) {
        return false;
      }
    }
    return true;
  }

  lemma RecordsAreRecords(records: seq<Record>)
    requires AreRecords(records)
    ensures forall i :: 0 <= i < |records| ==> IsRecord(records[i])
  {
  }

  // `validate_backup_manifest`
  method ValidateBackupManifest(m: Manifest, root: Option<Tree>) returns (r: Result<Report, Rejection>)
    ensures r.Ok? <==> Accepted(m, root)
    ensures r.Ok? ==> m.backupId.Str? && m.alembicRevision.Str? && m.files.Files?
    ensures r.Ok? ==> r.value == Report(Strip(m.backupId.s), Strip(m.alembicRevision.s), |m.files.records|)
  {
    hide Names, IsHeader, NamesFiles, AreRecords, IsRecord, IsStored, Strip;
    HeaderIsTexts(m);
    var headed := CheckHeader(m);
    if !headed {
      return Err(BadHeader);
    }
    var backupId := RequireText(m.backupId);
    var revision := RequireText(m.alembicRevision);
    if !m.files.Files? || m.files.records == [] {
      return Err(BadFiles);
    }
    var records := m.files.records;
    var known, names := CheckRecords(records);
    if !known {
      return Err(BadFiles);
    }
    var c := m.components;
    if !c.Components? || c.names != {"postgres", "object_storage", "vector_index", "secret_metadata"} {
      return Err(BadComponents);
    }
    if !c.postgres.Component? || c.postgres.strategy != Str("pg_dump_custom") {
      return Err(BadComponents);
    }
    var ok := CheckComponentFiles(c.postgres.files, names, records, true);
    if !ok || !c.objectStorage.Component? || c.objectStorage.strategy != Str("object_mirror") {
      return Err(BadComponents);
    }
    ok := CheckComponentFiles(c.objectStorage.files, names, records, false);
    if !ok || !c.vectorIndex.Component? || c.vectorIndex.recoveryMode != Str("rebuild_from_canonical_data")
      || c.vectorIndex.canonicalSources != Arr([Str("postgres"), Str("object_storage")]) || c.vectorIndex.files != Arr([]) {
      return Err(BadComponents);
    }
    if !c.secretMetadata.Component? || c.secretMetadata.recoveryMode != Str("postgres_metadata")
      || c.secretMetadata.secretValuesIncluded != Bool(false) {
      return Err(BadComponents);
    }
    ok := CheckComponentFiles(c.secretMetadata.files, names, records, true);
    if !ok {
      return Err(BadComponents);
    }
    if root.Some? {
      RecordsAreRecords(records);
      ok := CheckContents(records, root.value);
      if !ok {
        return Err(BadContent);
      }
    }
    return Ok(Report(backupId.value, revision.value, |records|));
  }

  // -- What acceptance says, field by field --

  predicate IsStrippedInstant(v: Json, micros: int) {
    v.Str? && Strip(v.s) != "" && FromIso(Strip(v.s)) == Some(Moment(true, micros))
  }

  lemma AcceptedHeader(m: Manifest, root: Option<Tree>)
    requires Accepted(m, root)
    ensures m.featureKey == Str("operations.backup_manifest") && m.schemaVersion in {Int(1), Float(1.0), Bool(true)}
    ensures forall v :: v in {m.backupId, m.platformVersion, m.alembicRevision} ==> v.Str? && Strip(v.s) != ""
    ensures exists started, finished :: started < finished && IsStrippedInstant(m.startedAt, started) && IsStrippedInstant(m.finishedAt, finished)
    ensures forall v :: v in {m.rpoTargetMinutes, m.rtoTargetMinutes} ==> (v.Int? && v.n > 0) || (v.Float? && v.r > 0.0)
  {
    hide Strip, AreRecords, AreComponents, IsStored, IsRecord;
    var started, finished := FromIso(Strip(m.startedAt.s)).value.micros, FromIso(Strip(m.finishedAt.s)).value.micros;
    assert IsStrippedInstant(m.startedAt, started) && IsStrippedInstant(m.finishedAt, finished);
  }

  // Every record names a file inside the directory, under a name no other record has, and states
  // the file's size and its digest in lowercase hexadecimal.
  lemma AcceptedFiles(m: Manifest, tree: Tree, i: nat)
    requires Accepted(m, Some(tree)) && i < |m.files.records|
    ensures var r := m.files.records[i];
      && r.Record? && r.path.Str? && Strip(r.path.s) != "" && Strip(r.path.s)[0] != '/' && ".." !in Parts(Strip(r.path.s))
      && var file := Resolved(Strip(r.path.s));
         && file in tree && r.sha256 == Str(Sha256(tree[file]))
         && (r.sizeBytes == Int(|tree[file]|) || (r.sizeBytes == Bool(true) && |tree[file]| == 1) || (r.sizeBytes == Bool(false) && tree[file] == []))
    ensures forall j :: 0 <= j < |m.files.records| && j != i ==>
      m.files.records[j].Record? && m.files.records[j].path.Str? && Strip(m.files.records[j].path.s) != Strip(m.files.records[i].path.s)
  {
    hide Strip, Parts, IsHeader, AreComponents, IsSha256;
    RecordsAreRecords(m.files.records);
    assert IsRecord(m.files.records[i]) && IsStored(m.files.records[i], tree);
    forall j | 0 <= j < |m.files.records| && j != i
      ensures m.files.records[j].Record? && m.files.records[j].path.Str?
      ensures Strip(m.files.records[j].path.s) != Strip(m.files.records[i].path.s) {
      assert IsRecord(m.files.records[j]);
      assert NameOf(m.files.records[j]) != NameOf(m.files.records[i]);
    }
  }

  // The four components and no other; the database and the secret metadata have files, the vector
  // index has none and is rebuilt, and no secret values are included.
  lemma AcceptedComponents(m: Manifest, root: Option<Tree>)
    requires Accepted(m, root)
    ensures m.components.Components? && m.components.names == {"postgres", "object_storage", "vector_index", "secret_metadata"}
    ensures var c := m.components;
      && c.postgres.Component? && c.postgres.strategy == Str("pg_dump_custom") && NamesFiles(c.postgres.files, m.files.records, true)
      && c.objectStorage.Component? && c.objectStorage.strategy == Str("object_mirror") && NamesFiles(c.objectStorage.files, m.files.records, false)
      && c.vectorIndex.Component? && c.vectorIndex.recoveryMode == Str("rebuild_from_canonical_data") && c.vectorIndex.files == Arr([])
      && c.vectorIndex.canonicalSources == Arr([Str("postgres"), Str("object_storage")])
      && c.secretMetadata.Component? && c.secretMetadata.recoveryMode == Str("postgres_metadata")
      && c.secretMetadata.secretValuesIncluded == Bool(false) && NamesFiles(c.secretMetadata.files, m.files.records, true)
  {
    hide NamesFiles, AreRecords, IsHeader, IsStored, IsRecord;
  }

  // A component's files: at least one where one is needed, no name twice, each the stripped path of
  // a record.
  lemma AcceptedNames(v: Json, records: seq<Record>, nonEmpty: bool)
    requires AreRecords(records) && NamesFiles(v, records, nonEmpty)
    ensures v.Arr? && (nonEmpty ==> |v.items| > 0)
    ensures forall i, j :: 0 <= i < j < |v.items| ==> v.items[i] != v.items[j]
    ensures forall i :: 0 <= i < |v.items| ==>
      v.items[i].Str? && exists r :: r in records && r.Record? && r.path.Str? && Strip(r.path.s) == v.items[i].s
  {
    hide Strip, StaysInside, IsSha256;
    forall i | 0 <= i < |v.items|
      ensures v.items[i].Str? && exists r :: r in records && r.Record? && r.path.Str? && Strip(r.path.s) == v.items[i].s {
      var j :| 0 <= j < |records| && IsRecord(records[j]) && NameOf(records[j]) == v.items[i].s;
      assert records[j] in records;
    }
  }
}
