// The backup producer and its two checkers agree: the validator against the backup directory, and
// the readback of a restored bucket.
module BackupRestore {
  import opened Results
  import opened Text
  import opened JsonValues
  import opened BackupFiles
  import opened BackupManifests

  // -- The builder's manifests are valid --

  ghost predicate NoRepeat(s: seq<string>) {
    forall i, j :: 0 <= i < j < |s| ==> s[i] != s[j]
  }

  lemma {:induction false} RecordedAre(tree: Tree, listing: seq<string>)
    ensures forall p :: p in Recorded(tree, listing) <==> p in listing && p in tree && BaseName(p) != "backup-manifest.json"
    ensures NoRepeat(listing) ==> NoRepeat(Recorded(tree, listing))
  {
    if listing == [] {
    } else {
      var init, last := listing[..|listing| - 1], listing[|listing| - 1];
      RecordedAre(tree, init);
      assert listing == init + [last];
      if NoRepeat(listing) {
        assert NoRepeat(init) && last !in init;
      }
    }
  }

  lemma {:induction false} ObjectPathsAre(paths: seq<string>)
    ensures forall v :: v in ObjectPaths(paths) <==> v.Str? && v.s in paths && OBJECT_PREFIX <= v.s
    ensures NoRepeat(paths) ==> forall i, j :: 0 <= i < j < |ObjectPaths(paths)| ==> ObjectPaths(paths)[i] != ObjectPaths(paths)[j]
  {
    if paths == [] {
    } else {
      var init, last := paths[..|paths| - 1], paths[|paths| - 1];
      ObjectPathsAre(init);
      assert paths == init + [last];
      if NoRepeat(paths) {
        assert NoRepeat(init) && last !in init;
      }
    }
  }

  // The directory spells no path with surrounding whitespace.
  ghost predicate TrimmedPaths(paths: seq<string>) {
    forall p :: p in paths ==> Trimmed(p)
  }

  lemma CleanRecord(tree: Tree, path: string)
    requires path in tree && Clean(path) && Trimmed(path)
    ensures IsRecord(RecordOf(tree, path)) && NameOf(RecordOf(tree, path)) == path && IsStored(RecordOf(tree, path), tree)
  {
    TrimmedIsStripped(path);
    TrimmedIsStripped(Sha256(tree[path]));
  }

  // Exactly when a backup's own parameters are usable and the two database files are there.
  ghost predicate Usable(tree: Tree, paths: seq<string>, b: Backup) {
    && !Blank(b.backupId) && !Blank(b.platformVersion) && !Blank(b.alembicRevision)
    && Seconds(b.startedAt) < Seconds(b.finishedAt)
    && b.rpo > 0 && b.rto > 0
    && "postgres.dump" in paths && "alembic-revision.txt" in paths
  }

  lemma HeaderExactly(tree: Tree, paths: seq<string>, b: Backup)
    requires (forall p :: p in paths ==> p in tree) && ClockText(Seconds(b.startedAt)) && ClockText(Seconds(b.finishedAt))
    ensures IsHeader(ManifestOf(tree, paths, b)) <==>
      && !Blank(b.backupId) && !Blank(b.platformVersion) && !Blank(b.alembicRevision)
      && Seconds(b.startedAt) < Seconds(b.finishedAt) && b.rpo > 0 && b.rto > 0
  {
    hide Strip, Sha256;
    TrimmedIsStripped(IsoZ(b.startedAt));
    TrimmedIsStripped(IsoZ(b.finishedAt));
  }

  lemma ObjectsAreNamed(records: seq<Record>, paths: seq<string>)
    requires NoRepeat(paths)
    ensures NamesFiles(Arr(ObjectPaths(paths)), records, false) <==>
      forall p :: p in paths && OBJECT_PREFIX <= p ==> Names(records, p)
  {
    hide Names, ObjectPaths;
    ObjectPathsAre(paths);
    var objects := ObjectPaths(paths);
    if forall p :: p in paths && OBJECT_PREFIX <= p ==> Names(records, p) {
      forall i | 0 <= i < |objects| ensures objects[i].Str? && Names(records, objects[i].s) {
        assert objects[i] in objects;
      }
    }
    if NamesFiles(Arr(objects), records, false) {
      forall p | p in paths && OBJECT_PREFIX <= p ensures Names(records, p) {
        assert Str(p) in objects;
        var i :| 0 <= i < |objects| && objects[i] == Str(p);
      }
    }
  }

  lemma OneName(v: Json, records: seq<Record>, a: string)
    requires v == Arr([Str(a)])
    ensures NamesFiles(v, records, true) <==> Names(records, a)
  {
    hide Names;
    assert v.items[0] == Str(a);
  }

  lemma TwoNames(v: Json, records: seq<Record>, a: string, b: string)
    requires v == Arr([Str(a), Str(b)]) && a != b
    ensures NamesFiles(v, records, true) <==> Names(records, a) && Names(records, b)
  {
    hide Names;
    assert v.items[0] == Str(a) && v.items[1] == Str(b);
  }

  // A file whose path carries surrounding whitespace does no harm to its manifest: it is no object,
  // and the stripped path is nobody else's and leads to a file of the same content.
  ghost predicate Harmless(tree: Tree, paths: seq<string>, p: string)
    requires p in tree
  {
    var name := Strip(p);
    && !(OBJECT_PREFIX <= p) && name != "" && StaysInside(name)
    && (forall q :: q in paths && Strip(q) == name ==> q == p)
    && Resolved(name) != "" && Resolved(name) in tree
    && |tree[Resolved(name)]| == |tree[p]| && Sha256(tree[Resolved(name)]) == Sha256(tree[p])
  }

  ghost predicate HarmlessPaths(tree: Tree, paths: seq<string>)
    requires forall p :: p in paths ==> p in tree
  {
    forall p :: p in paths ==> Trimmed(p) || Harmless(tree, paths, p)
  }

  lemma RecordIs(tree: Tree, path: string)
    requires path in tree
    ensures IsRecord(RecordOf(tree, path)) <==> Strip(path) != "" && StaysInside(Strip(path))
    ensures IsRecord(RecordOf(tree, path)) ==> NameOf(RecordOf(tree, path)) == Strip(path)
    ensures IsRecord(RecordOf(tree, path)) ==> (IsStored(RecordOf(tree, path), tree) <==>
      var file := Resolved(Strip(path));
      file != "" && file in tree && |tree[file]| == |tree[path]| && Sha256(tree[file]) == Sha256(tree[path]))
  {
    hide StaysInside;
    TrimmedIsStripped(Sha256(tree[path]));
  }

  // The records are valid and describe the directory exactly when no untrimmed path does harm.
  ghost predicate RecordsHold(tree: Tree, paths: seq<string>)
    requires forall p :: p in paths ==> p in tree
  {
    var records := RecordsOf(tree, paths);
    AreRecords(records) && forall i :: 0 <= i < |records| ==> IsStored(records[i], tree)
  }

  lemma RecordAt(tree: Tree, paths: seq<string>, p: string) returns (i: nat)
    requires (forall q :: q in paths ==> q in tree) && p in paths
    ensures i < |paths| && paths[i] == p && RecordsOf(tree, paths)[i] == RecordOf(tree, p)
  {
    i :| 0 <= i < |paths| && paths[i] == p;
  }

  lemma HeldRecord(tree: Tree, paths: seq<string>, p: string)
    requires (forall q :: q in paths ==> q in tree) && RecordsHold(tree, paths) && p in paths
    ensures IsRecord(RecordOf(tree, p)) && IsStored(RecordOf(tree, p), tree)
    ensures forall q :: q in paths && Strip(q) == Strip(p) ==> q == p
  {
    hide IsRecord, IsStored, NameOf, RecordOf, Strip;
    var records := RecordsOf(tree, paths);
    var i := RecordAt(tree, paths, p);
    forall q | q in paths && Strip(q) == Strip(p) ensures q == p {
      var j := RecordAt(tree, paths, q);
      RecordIs(tree, p);
      RecordIs(tree, q);
      assert IsRecord(records[i]) && IsRecord(records[j]);
      assert NameOf(records[i]) == NameOf(records[j]);
    }
  }

  lemma ListedIsClean(tree: Tree, p: string)
    requires Listing(tree) && p in tree
    ensures Clean(p)
  {
  }

  lemma HarmlessHold(tree: Tree, paths: seq<string>)
    requires Listing(tree) && NoRepeat(paths) && (forall p :: p in paths ==> p in tree) && HarmlessPaths(tree, paths)
    ensures RecordsHold(tree, paths)
  {
    hide IsRecord, IsStored, NameOf, RecordOf, Strip, Trimmed, Listing;
    var records := RecordsOf(tree, paths);
    forall i | 0 <= i < |paths|
      ensures IsRecord(records[i]) && IsStored(records[i], tree) && NameOf(records[i]) == Strip(paths[i]) {
      assert paths[i] in paths && records[i] == RecordOf(tree, paths[i]);
      RecordIs(tree, paths[i]);
      if Trimmed(paths[i]) {
        ListedIsClean(tree, paths[i]);
        CleanRecord(tree, paths[i]);
      }
    }
    forall i, j | 0 <= i < j < |paths| ensures NameOf(records[i]) != NameOf(records[j]) {
      assert paths[i] in paths && paths[j] in paths;
      if Trimmed(paths[i]) && Trimmed(paths[j]) {
        TrimmedIsStripped(paths[i]);
        TrimmedIsStripped(paths[j]);
      }
    }
  }

  lemma HeldNames(tree: Tree, paths: seq<string>, n: string)
    requires (forall p :: p in paths ==> p in tree) && RecordsHold(tree, paths)
    ensures Names(RecordsOf(tree, paths), n) <==> exists p :: p in paths && Strip(p) == n
  {
    hide IsRecord, IsStored, NameOf, RecordOf, Strip;
    var records := RecordsOf(tree, paths);
    if Names(records, n) {
      var i :| 0 <= i < |records| && IsRecord(records[i]) && NameOf(records[i]) == n;
      assert paths[i] in paths && records[i] == RecordOf(tree, paths[i]);
      RecordIs(tree, paths[i]);
    }
    if p :| p in paths && Strip(p) == n {
      var i := RecordAt(tree, paths, p);
      HeldRecord(tree, paths, p);
      RecordIs(tree, p);
      assert IsRecord(records[i]) && NameOf(records[i]) == n;
    }
  }

  ghost predicate RecordedFrom(tree: Tree, listing: seq<string>) {
    forall p :: p in Recorded(tree, listing) <==> p in listing && p in tree && BaseName(p) != MANIFEST_NAME
  }

  // A name without surrounding whitespace that leads to itself is known only as a path listed.
  lemma PlainName(tree: Tree, listing: seq<string>, n: string)
    requires Listing(tree) && (forall p :: p in tree ==> p in listing)
    requires RecordedFrom(tree, listing) && RecordsHold(tree, Recorded(tree, listing))
    requires Trimmed(n) && Clean(n) && BaseName(n) != MANIFEST_NAME
    ensures Names(RecordsOf(tree, Recorded(tree, listing)), n) <==> n in Recorded(tree, listing)
  {
    hide IsRecord, IsStored, NameOf, RecordOf, Strip, Trimmed, RecordsHold, Recorded, BaseName, Names;
    var paths := Recorded(tree, listing);
    HeldNames(tree, paths, n);
    TrimmedIsStripped(n);
    if p :| p in paths && Strip(p) == n {
      HeldRecord(tree, paths, p);
      RecordIs(tree, p);
      assert n in tree;
      assert n in paths;
    }
  }

  lemma NothingNamed(n: string)
    ensures !Names([], n)
  {
  }

  // The three files components of a built manifest name known files.
  ghost predicate ComponentsHold(tree: Tree, paths: seq<string>)
    requires forall p :: p in paths ==> p in tree
  {
    var records := RecordsOf(tree, paths);
    && Names(records, "postgres.dump") && Names(records, "alembic-revision.txt")
    && forall p :: p in paths && OBJECT_PREFIX <= p ==> Names(records, p)
  }

  lemma AcceptedInParts(tree: Tree, paths: seq<string>, b: Backup)
    requires NoRepeat(paths) && forall p :: p in paths ==> p in tree
    ensures Accepted(ManifestOf(tree, paths, b), Some(tree)) <==>
      IsHeader(ManifestOf(tree, paths, b)) && RecordsHold(tree, paths) && ComponentsHold(tree, paths)
  {
    hide IsHeader, AreRecords, IsRecord, IsStored, Names, NamesFiles, ObjectPaths;
    var m, records := ManifestOf(tree, paths, b), RecordsOf(tree, paths);
    ObjectsAreNamed(records, paths);
    TwoNames(m.components.postgres.files, records, "postgres.dump", "alembic-revision.txt");
    OneName(m.components.secretMetadata.files, records, "postgres.dump");
    if records == [] {
      NothingNamed("postgres.dump");
    }
  }

  lemma HeldIsHarmless(tree: Tree, paths: seq<string>, p: string)
    requires (forall q :: q in paths ==> q in tree) && RecordsHold(tree, paths) && p in paths
    ensures Harmless(tree, paths, p) <==> !(OBJECT_PREFIX <= p)
  {
    hide Strip, RecordsHold, StaysInside;
    HeldRecord(tree, paths, p);
    RecordIs(tree, p);
  }

  // An object is known under its own path exactly when that is trimmed.
  lemma ObjectIsNamed(tree: Tree, paths: seq<string>, p: string)
    requires (forall q :: q in paths ==> q in tree) && RecordsHold(tree, paths) && p in paths
    ensures Names(RecordsOf(tree, paths), p) <==> Trimmed(p)
  {
    hide Strip, RecordsHold, RecordsOf;
    HeldNames(tree, paths, p);
    if Trimmed(p) {
      TrimmedIsStripped(p);
    } else {
      forall q | q in paths ensures Strip(q) != p {
        StripTrims(q);
      }
    }
  }

  lemma ObjectsExactly(tree: Tree, paths: seq<string>)
    requires (forall p :: p in paths ==> p in tree) && RecordsHold(tree, paths)
    ensures (forall p :: p in paths && OBJECT_PREFIX <= p ==> Names(RecordsOf(tree, paths), p)) <==> HarmlessPaths(tree, paths)
  {
    hide RecordsOf, Names, Trimmed, RecordsHold, Harmless;
    forall p | p in paths
      ensures OBJECT_PREFIX <= p ==> (Names(RecordsOf(tree, paths), p) <==> Trimmed(p))
      ensures !Trimmed(p) ==> (Harmless(tree, paths, p) <==> !(OBJECT_PREFIX <= p)) {
      ObjectIsNamed(tree, paths, p);
      HeldIsHarmless(tree, paths, p);
    }
  }

  lemma FileAtTop(p: string)
    requires p != "" && p != "." && p != ".." && '/' !in p
    ensures Clean(p) && BaseName(p) == p && Parts(p) == [p]
  {
    assert FirstSlash(p) == |p|;
  }

  lemma DatabaseFilesAreClean()
    ensures Trimmed("postgres.dump") && Clean("postgres.dump") && BaseName("postgres.dump") != MANIFEST_NAME
    ensures Trimmed("alembic-revision.txt") && Clean("alembic-revision.txt") && BaseName("alembic-revision.txt") != MANIFEST_NAME
  {
    hide Parts, Clean, BaseName, Resolved, StaysInside;
    FileAtTop("postgres.dump");
    FileAtTop("alembic-revision.txt");
  }

  lemma FilesExactly(tree: Tree, listing: seq<string>)
    requires Listing(tree) && NoRepeat(listing) && (forall p :: p in tree ==> p in listing)
    requires RecordsHold(tree, Recorded(tree, listing))
    ensures ComponentsHold(tree, Recorded(tree, listing)) <==>
      var paths := Recorded(tree, listing);
      "postgres.dump" in paths && "alembic-revision.txt" in paths && HarmlessPaths(tree, paths)
  {
    hide RecordsOf, Recorded, Names, Listing, Trimmed, RecordsHold, HarmlessPaths, BaseName, Clean;
    RecordedAre(tree, listing);
    DatabaseFilesAreClean();
    PlainName(tree, listing, "postgres.dump");
    PlainName(tree, listing, "alembic-revision.txt");
    ObjectsExactly(tree, Recorded(tree, listing));
  }

  // A manifest built from any complete listing of a directory is accepted against that directory
  // exactly when the backup is usable and no path with surrounding whitespace does harm.
  lemma BuiltIsAcceptedExactly(tree: Tree, listing: seq<string>, b: Backup)
    requires Listing(tree) && NoRepeat(listing) && forall p :: p in tree ==> p in listing
    requires ClockText(Seconds(b.startedAt)) && ClockText(Seconds(b.finishedAt))
    ensures Accepted(ManifestOf(tree, Recorded(tree, listing), b), Some(tree)) <==>
      Usable(tree, Recorded(tree, listing), b) && HarmlessPaths(tree, Recorded(tree, listing))
  {
    hide IsHeader, RecordsOf, Recorded, RecordsHold, HarmlessPaths, ObjectPaths, NamesFiles, Names, Listing, BaseName;
    RecordedAre(tree, listing);
    var paths := Recorded(tree, listing);
    AcceptedInParts(tree, paths, b);
    HeaderExactly(tree, paths, b);
    if HarmlessPaths(tree, paths) {
      HarmlessHold(tree, paths);
    }
    if RecordsHold(tree, paths) {
      FilesExactly(tree, listing);
    }
  }

  lemma {:induction false} CountsOnce(paths: seq<string>, names: set<string>)
    requires NoRepeat(paths) && forall p :: p in paths <==> p in names
    ensures |paths| == |names|
  {
    if paths == [] {
      assert names == {};
    } else {
      var last, init := paths[|paths| - 1], paths[..|paths| - 1];
      assert paths == init + [last];
      assert last !in init;
      CountsOnce(init, names - {last});
    }
  }

  // Building a manifest and validating it, as `create_backup` does: it is accepted exactly as
  // stated, and the report then repeats the ids without surrounding whitespace and counts the files.
  method BuildAndValidate(tree: Tree, listing: seq<string>, b: Backup) returns (m: Manifest, r: Result<Report, Rejection>)
    requires Listing(tree) && NoRepeat(listing) && forall p :: p in listing <==> p in tree
    requires ClockText(Seconds(b.startedAt)) && ClockText(Seconds(b.finishedAt))
    ensures r.Ok? <==> Usable(tree, Recorded(tree, listing), b) && HarmlessPaths(tree, Recorded(tree, listing))
    ensures r.Ok? ==> r.value.backupId == Strip(b.backupId) && r.value.alembicRevision == Strip(b.alembicRevision)
    ensures r.Ok? ==> r.value.fileCount == |set p | p in tree && BaseName(p) != "backup-manifest.json"|
  {
    hide Accepted, Recorded, Usable, HarmlessPaths, Strip, Listing, ClockText, BaseName;
    m := BuildManifest(tree, listing, b);
    r := ValidateBackupManifest(m, Some(tree));
    BuiltIsAcceptedExactly(tree, listing, b);
    RecordedAre(tree, listing);
    var files := set p | p in tree && BaseName(p) != "backup-manifest.json";
    assert forall p :: p in Recorded(tree, listing) <==> p in files;
    CountsOnce(Recorded(tree, listing), files);
  }

  // With trimmed paths only the usability counts.
  lemma TrimmedIsAcceptedExactly(tree: Tree, listing: seq<string>, b: Backup)
    requires Listing(tree) && NoRepeat(listing) && TrimmedPaths(listing) && forall p :: p in tree ==> p in listing
    requires ClockText(Seconds(b.startedAt)) && ClockText(Seconds(b.finishedAt))
    ensures Accepted(ManifestOf(tree, Recorded(tree, listing), b), Some(tree)) <==> Usable(tree, Recorded(tree, listing), b)
  {
    hide Accepted, Recorded, Usable, Listing, Trimmed;
    RecordedAre(tree, listing);
    BuiltIsAcceptedExactly(tree, listing, b);
  }

  lemma BlankObject()
    ensures var p := "object-storage/report.pdf "; OBJECT_PREFIX <= p && !Trimmed(p) && BaseName(p) != MANIFEST_NAME
  {
    hide Parts;
    var p := "object-storage/report.pdf ";
    PartsBelow("object-storage", "report.pdf ");
    FileAtTop("report.pdf ");
    assert p == "object-storage" + "/" + "report.pdf ";
    assert BaseName(p) == "report.pdf ";
  }

  // One object whose name ends in a blank is enough for the backup's own validation to refuse it.
  lemma BlankAfterObjectIsRefused(tree: Tree, listing: seq<string>, b: Backup)
    requires Listing(tree) && NoRepeat(listing) && forall p :: p in tree ==> p in listing
    requires ClockText(Seconds(b.startedAt)) && ClockText(Seconds(b.finishedAt))
    requires "object-storage/report.pdf " in tree
    ensures !Accepted(ManifestOf(tree, Recorded(tree, listing), b), Some(tree))
  {
    hide Accepted, Recorded, Usable, Listing, BaseName, Trimmed;
    BlankObject();
    RecordedAre(tree, listing);
    BuiltIsAcceptedExactly(tree, listing, b);
  }

  // -- Objects --

  function ObjectNames(tree: Tree): (r: set<string>)
    ensures forall k :: k in r <==> OBJECT_PREFIX + k in tree
  {
    var r := set p | p in tree && OBJECT_PREFIX <= p :: RemovePrefix(p, OBJECT_PREFIX);
    assert forall k :: k in r <==> OBJECT_PREFIX + k in tree by {
      forall k ensures k in r <==> OBJECT_PREFIX + k in tree {
        RemovePrefixMeans(k, OBJECT_PREFIX);
        if k in r {
          var p :| p in tree && OBJECT_PREFIX <= p && RemovePrefix(p, OBJECT_PREFIX) == k;
          RemovePrefixMeans(p, OBJECT_PREFIX);
        }
        if OBJECT_PREFIX + k in tree {
          assert OBJECT_PREFIX <= OBJECT_PREFIX + k;
        }
      }
    }
    r
  }

  // The object tree of a backup directory, as the bucket it was mirrored from names it.
  function Objects(tree: Tree): Tree {
    map k | k in ObjectNames(tree) :: tree[OBJECT_PREFIX + k]
  }

  lemma ObjectsAre(tree: Tree, k: string)
    ensures k in Objects(tree) <==> OBJECT_PREFIX + k in tree
    ensures k in Objects(tree) ==> Objects(tree)[k] == tree[OBJECT_PREFIX + k]
  {
  }

  // -- The readback --

  predicate IsObject(r: Record) {
    r.Record? && r.path.Str? && OBJECT_PREFIX <= r.path.s
  }

  function ObjectName(r: Record): string
    requires IsObject(r)
  {
    RemovePrefix(r.path.s, OBJECT_PREFIX)
  }

  // The `expected` dict: a later record of the same path replaces an earlier one.
  function Expected(records: seq<Record>): map<string, Record> {
    if records == [] then map[]
    else
      var before, last := Expected(records[..|records| - 1]), records[|records| - 1];
      if IsObject(last) then before[ObjectName(last) := last] else before
  }

  predicate Matches(r: Record, content: Bytes) {
    r.Record? && SizeOf(r.sizeBytes) == |content| && r.sha256 == Str(Sha256(content))
  }

  ghost predicate ReadsBack(records: seq<Record>, bucket: Tree) {
    && bucket.Keys == Expected(records).Keys
    && forall k :: k in bucket ==> Matches(Expected(records)[k], bucket[k])
  }

  // `_verify_object_readback`
  method VerifyObjectReadback(records: seq<Record>, bucket: Tree) returns (ok: bool)
    requires forall i :: 0 <= i < |records| ==> IsRecord(records[i])
    ensures ok <==> ReadsBack(records, bucket)
  {
    var expected: map<string, Record> := map[];
    for i := 0 to |records|
      invariant expected == Expected(records[..i])
    {
      assert records[..i + 1][..i] == records[..i];
      if IsObject(records[i]) {
        expected := expected[ObjectName(records[i]) := records[i]];
      }
    }
    assert records[..|records|] == records;
    if bucket.Keys != expected.Keys {
      return false;
    }
    var left := expected.Keys;
    while left != {}
      invariant left <= expected.Keys
      invariant forall k :: k in expected && k !in left ==> Matches(expected[k], bucket[k])
      decreases |left|
    {
      var k :| k in left;
      var digest := Sha256Of(bucket[k]);
      if !expected[k].Record? || SizeOf(expected[k].sizeBytes) != |bucket[k]| || expected[k].sha256 != Str(digest) {
        assert !Matches(expected[k], bucket[k]);
        return false;
      }
      left := left - {k};
    }
    return true;
  }

  lemma {:induction false} ExpectedFrom(records: seq<Record>, k: string)
    ensures k in Expected(records) <==> exists i :: 0 <= i < |records| && IsObject(records[i]) && ObjectName(records[i]) == k
    ensures k in Expected(records) ==>
      exists i :: 0 <= i < |records| && IsObject(records[i]) && ObjectName(records[i]) == k && Expected(records)[k] == records[i]
  {
    if records == [] {
    } else {
      var n := |records| - 1;
      ExpectedFrom(records[..n], k);
      assert forall i :: 0 <= i < n ==> records[..n][i] == records[i];
    }
  }

  // -- What acceptance and readback together say --

  // No two different contents among the two trees share a digest.
  ghost predicate CollisionFree(a: Tree, b: Tree) {
    forall p, q :: p in a && q in b && Sha256(a[p]) == Sha256(b[q]) ==> a[p] == b[q]
  }

  ghost predicate TrimmedRecords(records: seq<Record>) {
    forall i :: 0 <= i < |records| && records[i].Record? && records[i].path.Str? ==> Trimmed(records[i].path.s)
  }

  // Every object of the backup is recorded in the manifest.
  ghost predicate AllRecorded(records: seq<Record>, tree: Tree) {
    forall k :: k in Objects(tree) ==> k in Expected(records)
  }

  lemma ObjectPathIsClean(k: string)
    requires Clean(k)
    ensures Clean(OBJECT_PREFIX + k)
  {
    assert OBJECT_PREFIX + k == "object-storage" + "/" + k;
    CleanBelow("object-storage", k);
  }

  lemma AcceptedObject(m: Manifest, tree: Tree, bucket: Tree, k: string)
    requires Accepted(m, Some(tree)) && TrimmedRecords(m.files.records) && Listing(bucket) && CollisionFree(tree, bucket)
    requires ReadsBack(m.files.records, bucket) && k in bucket
    ensures OBJECT_PREFIX + k in tree && bucket[k] == tree[OBJECT_PREFIX + k]
  {
    hide AreComponents, IsHeader, Strip;
    var records := m.files.records;
    ExpectedFrom(records, k);
    var i :| 0 <= i < |records| && IsObject(records[i]) && ObjectName(records[i]) == k && Expected(records)[k] == records[i];
    var path := records[i].path.s;
    RemovePrefixMeans(path, OBJECT_PREFIX);
    assert path == OBJECT_PREFIX + k;
    TrimmedIsStripped(path);
    ObjectPathIsClean(k);
    assert IsStored(records[i], tree) && Resolved(NameOf(records[i])) == path;
    assert Matches(records[i], bucket[k]);
  }

  lemma AcceptedHasRecords(m: Manifest, tree: Tree)
    requires Accepted(m, Some(tree))
    ensures m.files.Files? && forall i :: 0 <= i < |m.files.records| ==> IsRecord(m.files.records[i])
  {
    RecordsAreRecords(m.files.records);
  }

  // The manifest records every object of the backup, with its digest, and no object it lacks.
  ghost predicate RecordsObjects(records: seq<Record>, tree: Tree) {
    && Expected(records).Keys == Objects(tree).Keys
    && forall k :: k in Objects(tree) ==>
         Expected(records)[k].Record? && Expected(records)[k].sha256 == Str(Sha256(Objects(tree)[k]))
  }

  // A bucket that passes the readback holds exactly the names recorded, and is the backup's whole
  // object tree exactly when the manifest describes that tree.
  lemma ReadbackIsFaithful(records: seq<Record>, tree: Tree, bucket: Tree)
    requires ReadsBack(records, bucket) && CollisionFree(tree, bucket)
    ensures bucket.Keys == Expected(records).Keys
    ensures forall k :: k in bucket ==>
      var r := Expected(records)[k];
      r.Record? && r.sha256 == Str(Sha256(bucket[k])) && (r.sizeBytes.Int? ==> r.sizeBytes.n == |bucket[k]|)
    ensures bucket == Objects(tree) <==> RecordsObjects(records, tree)
  {
    hide Expected, Objects;
    if RecordsObjects(records, tree) {
      forall k | k in bucket ensures bucket[k] == Objects(tree)[k] {
        ObjectsAre(tree, k);
        assert Matches(Expected(records)[k], bucket[k]);
      }
    }
    if bucket == Objects(tree) {
      forall k | k in bucket ensures Matches(Expected(records)[k], bucket[k]) {
      }
    }
  }

  lemma SameKeysSameTree(part: Tree, whole: Tree)
    requires forall k :: k in part ==> k in whole && part[k] == whole[k]
    ensures part == whole <==> forall k :: k in whole ==> k in part
  {
    if forall k :: k in whole ==> k in part {
      assert part.Keys == whole.Keys;
    }
  }

  // If moreover the validator accepts the manifest against the backup directory, and records no
  // path with surrounding whitespace, the bucket holds objects of the backup only, and all of
  // them exactly when the manifest records every object.
  lemma TrimmedReadbackIsFaithful(m: Manifest, tree: Tree, bucket: Tree)
    requires Accepted(m, Some(tree)) && TrimmedRecords(m.files.records) && Listing(bucket) && CollisionFree(tree, bucket)
    requires ReadsBack(m.files.records, bucket)
    ensures forall k :: k in bucket ==> k in Objects(tree) && bucket[k] == Objects(tree)[k]
    ensures bucket == Objects(tree) <==> AllRecorded(m.files.records, tree)
    ensures RecordsObjects(m.files.records, tree) <==> AllRecorded(m.files.records, tree)
  {
    AcceptedHasRecords(m, tree);
    ReadbackIsFaithful(m.files.records, tree, bucket);
    forall k | k in bucket ensures k in Objects(tree) && bucket[k] == Objects(tree)[k] {
      hide Accepted, Expected, Objects, Listing, CollisionFree, TrimmedRecords, ReadsBack;
      AcceptedObject(m, tree, bucket, k);
      ObjectsAre(tree, k);
    }
    hide Accepted, Expected, Objects, Listing, CollisionFree, TrimmedRecords, RecordsObjects;
    SameKeysSameTree(bucket, Objects(tree));
  }

  // -- A faithful mirror of a built backup --

  lemma BuiltExpects(tree: Tree, paths: seq<string>, k: string)
    requires forall p :: p in paths ==> p in tree
    ensures k in Expected(RecordsOf(tree, paths)) <==> OBJECT_PREFIX + k in paths
    ensures k in Expected(RecordsOf(tree, paths)) ==> Expected(RecordsOf(tree, paths))[k] == RecordOf(tree, OBJECT_PREFIX + k)
  {
    hide Expected;
    var records := RecordsOf(tree, paths);
    ExpectedFrom(records, k);
    RemovePrefixMeans(k, OBJECT_PREFIX);
    forall i | 0 <= i < |records| ensures IsObject(records[i]) && ObjectName(records[i]) == k <==> paths[i] == OBJECT_PREFIX + k {
      assert records[i] == RecordOf(tree, paths[i]);
      RemovePrefixMeans(paths[i], OBJECT_PREFIX);
    }
    if OBJECT_PREFIX + k in paths {
      var i :| 0 <= i < |paths| && paths[i] == OBJECT_PREFIX + k;
      assert IsObject(records[i]) && ObjectName(records[i]) == k;
    }
  }

  // A bucket mirrored from an unchanged backup passes the readback of the built manifest exactly
  // when no object is called like the manifest.
  lemma MirrorReadsBackExactly(tree: Tree, listing: seq<string>)
    requires forall p :: p in tree ==> p in listing
    ensures ReadsBack(RecordsOf(tree, Recorded(tree, listing)), Objects(tree)) <==>
      forall p :: p in tree && OBJECT_PREFIX <= p ==> BaseName(p) != MANIFEST_NAME
  {
    hide Expected, Objects, BaseName, Recorded, RecordsOf;
    RecordedAre(tree, listing);
    var paths := Recorded(tree, listing);
    var expected, bucket := Expected(RecordsOf(tree, paths)), Objects(tree);
    forall k
      ensures k in expected <==> OBJECT_PREFIX + k in tree && BaseName(OBJECT_PREFIX + k) != MANIFEST_NAME
      ensures k in bucket <==> OBJECT_PREFIX + k in tree
      ensures k in expected && k in bucket ==> Matches(expected[k], bucket[k]) {
      BuiltExpects(tree, paths, k);
      ObjectsAre(tree, k);
    }
    if bucket.Keys == expected.Keys {
      forall p | p in tree && OBJECT_PREFIX <= p ensures BaseName(p) != MANIFEST_NAME {
        RemovePrefixMeans(p, OBJECT_PREFIX);
        assert RemovePrefix(p, OBJECT_PREFIX) in bucket;
      }
    }
    if forall p :: p in tree && OBJECT_PREFIX <= p ==> BaseName(p) != MANIFEST_NAME {
      forall k ensures k in bucket <==> k in expected {
        assert OBJECT_PREFIX <= OBJECT_PREFIX + k;
      }
      assert bucket.Keys == expected.Keys;
    }
  }

  lemma StillAccepted(tree: Tree, paths: seq<string>, b: Backup, written: Bytes)
    requires Listing(tree) && NoRepeat(paths) && TrimmedPaths(paths) && forall p :: p in paths ==> p in tree
    requires Accepted(ManifestOf(tree, paths, b), Some(tree)) && MANIFEST_NAME !in paths
    ensures Accepted(ManifestOf(tree, paths, b), Some(tree[MANIFEST_NAME := written]))
  {
    hide IsHeader, AreComponents, AreRecords, IsRecord, Strip, Parts;
    var records := RecordsOf(tree, paths);
    forall i | 0 <= i < |records| ensures IsRecord(records[i]) && IsStored(records[i], tree[MANIFEST_NAME := written]) {
      assert paths[i] in paths && records[i] == RecordOf(tree, paths[i]);
      CleanRecord(tree, paths[i]);
    }
  }

  lemma SameObjects(tree: Tree, written: Bytes)
    ensures Objects(tree[MANIFEST_NAME := written]) == Objects(tree)
  {
    hide Objects;
    var stored := tree[MANIFEST_NAME := written];
    forall k ensures k in Objects(stored) <==> k in Objects(tree)
             ensures k in Objects(tree) ==> Objects(stored)[k] == Objects(tree)[k] {
      ObjectsAre(stored, k);
      ObjectsAre(tree, k);
      assert (OBJECT_PREFIX + k)[0] == 'o' && MANIFEST_NAME[0] == 'b';
    }
  }

  // The whole way: a usable backup, with its manifest written beside it, is accepted as stored,
  // and its faithful mirror reads back exactly when no object is called like the manifest.
  lemma BackupRestoresExactly(tree: Tree, listing: seq<string>, b: Backup, written: Bytes)
    requires Listing(tree) && NoRepeat(listing) && TrimmedPaths(listing) && forall p :: p in tree ==> p in listing
    requires ClockText(Seconds(b.startedAt)) && ClockText(Seconds(b.finishedAt))
    requires Usable(tree, Recorded(tree, listing), b)
    ensures var m, stored := ManifestOf(tree, Recorded(tree, listing), b), tree[MANIFEST_NAME := written];
      && Accepted(m, Some(stored)) && Objects(stored) == Objects(tree)
      && (ReadsBack(m.files.records, Objects(stored)) <==> forall p :: p in tree && OBJECT_PREFIX <= p ==> BaseName(p) != MANIFEST_NAME)
  {
    hide Recorded, ReadsBack, Objects, Usable, BaseName, Parts;
    var paths := Recorded(tree, listing);
    RecordedAre(tree, listing);
    TrimmedIsAcceptedExactly(tree, listing, b);
    MirrorReadsBackExactly(tree, listing);
    FileAtTop(MANIFEST_NAME);
    StillAccepted(tree, paths, b, written);
    SameObjects(tree, written);
  }

  // Writing the manifest beside the files does not change what is recorded of them.
  lemma SameManifest(tree: Tree, paths: seq<string>, b: Backup, written: Bytes)
    requires (forall p :: p in paths ==> p in tree) && MANIFEST_NAME !in paths
    ensures ManifestOf(tree, paths, b) == ManifestOf(tree[MANIFEST_NAME := written], paths, b)
  {
    var stored := tree[MANIFEST_NAME := written];
    forall i | 0 <= i < |paths| ensures RecordOf(tree, paths[i]) == RecordOf(stored, paths[i]) {
      assert paths[i] in paths;
    }
    assert RecordsOf(tree, paths) == RecordsOf(stored, paths);
  }

  // An object whose path carries whitespace makes the stored backup invalid.
  lemma UntrimmedObjectIsRefused(tree: Tree, paths: seq<string>, b: Backup, written: Bytes, p: string)
    requires NoRepeat(paths) && (forall q :: q in paths ==> q in tree) && MANIFEST_NAME !in paths
    requires p in paths && OBJECT_PREFIX <= p && !Trimmed(p)
    ensures !Accepted(ManifestOf(tree, paths, b), Some(tree[MANIFEST_NAME := written]))
  {
    hide ManifestOf, IsHeader, RecordsHold, Names, Trimmed, Accepted;
    var stored := tree[MANIFEST_NAME := written];
    SameManifest(tree, paths, b, written);
    AcceptedInParts(stored, paths, b);
    if RecordsHold(stored, paths) {
      ObjectIsNamed(stored, paths, p);
    }
  }
}
