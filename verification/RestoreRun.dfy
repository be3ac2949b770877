// Backing up a deployment and restoring a backup into a target, as sequences of commands each of
// which may fail.
module RestoreRun {
  import opened Results
  import opened Text
  import opened JsonValues
  import opened BackupFiles
  import opened BackupManifests
  import opened BackupRestore

  const APPLICATION_SERVICES: set<string> :=
    {"api", "web", "knowledge-ingest-worker", "outbox-dispatcher", "bootstrap", "migrate"}

  // What stands for a target's project, database or bucket, and what the operator repeated.
  datatype Confirmation = Confirmation(actual: string, repeated: Option<string>)

  // `_confirm_target` lets this one pass.
  predicate Confirmed(c: Confirmation) {
    c.actual != "" && c.repeated == Some(c.actual)
  }

  ghost predicate AllConfirmed(cs: seq<Confirmation>) {
    forall c :: c in cs ==> Confirmed(c)
  }

  // What the commands turn out to do: whether the dump is copied and then restored, what a failed
  // restore leaves of the database, whether the mirror succeeds and what it leaves in the bucket
  // either way, the revision the database reports, whether reading back works.
  datatype Commands = Commands(
    copied: bool, restored: bool, wreck: Option<Bytes>, mirrored: bool, bucket: Tree, revision: Option<string>, readBack: bool)

  class Target {
    // The dump the database was made from, if it was made from one.
    var database: Option<Bytes>
    var bucket: Tree
  }

  // Before anything is touched.
  ghost predicate MayRestore(m: Manifest, tree: Tree, confirmations: seq<Confirmation>, running: set<string>) {
    && Accepted(m, Some(tree)) && AllConfirmed(confirmations)
    && running !! APPLICATION_SERVICES && "postgres" in running && "minio" in running
  }

  predicate DumpIsCopied(tree: Tree, run: Commands) {
    run.copied && "postgres.dump" in tree
  }

  // The revision that `psql` answers is the manifest's revision.
  predicate SameRevision(m: Manifest, revision: Option<string>) {
    revision.Some? && m.alembicRevision == Str(Strip(revision.value))
  }

  method ConfirmTarget(cs: seq<Confirmation>) returns (ok: bool)
    ensures ok <==> forall c :: c in cs ==> c.actual != "" && c.repeated == Some(c.actual)
  {
    for i := 0 to |cs|
      invariant forall j :: 0 <= j < i ==> Confirmed(cs[j])
    {
      if !Confirmed(cs[i]) { return false; }
    }
    return true;
  }

  // Every command does its work, and the bucket it leaves passes the readback.
  ghost predicate Restores(m: Manifest, tree: Tree, run: Commands)
    requires m.files.Files?
  {
    && DumpIsCopied(tree, run) && run.restored && run.mirrored && SameRevision(m, run.revision)
    && run.readBack && ReadsBack(m.files.records, run.bucket)
  }

  lemma ReadbackNames(records: seq<Record>, bucket: Tree)
    requires ReadsBack(records, bucket)
    ensures bucket.Keys == Expected(records).Keys
  {
  }

  lemma GuardsMean(confirmations: seq<Confirmation>, running: set<string>)
    ensures AllConfirmed(confirmations) <==> forall c :: c in confirmations ==> c.actual != "" && c.repeated == Some(c.actual)
    ensures running !! APPLICATION_SERVICES <==>
      running !! {"api", "web", "knowledge-ingest-worker", "outbox-dispatcher", "bootstrap", "migrate"}
  {
  }

  // `restore_canonical_data`. Nothing is touched unless the backup is valid, the operator has
  // confirmed the target and the application is stopped; the bucket is touched only after the
  // database has been restored. A success means a database made from the recorded dump and a
  // bucket that holds exactly the recorded names; it is the backup's object tree exactly when the
  // manifest describes that tree.
  method RestoreCanonicalData(m: Manifest, tree: Tree, confirmations: seq<Confirmation>, running: set<string>, run: Commands, target: Target)
    returns (ok: bool)
    modifies target
    ensures ok <==> MayRestore(m, tree, confirmations, running) && Restores(m, tree, run)
    ensures !(MayRestore(m, tree, confirmations, running) && DumpIsCopied(tree, run)) ==>
      target.database == old(target.database) && target.bucket == old(target.bucket)
    ensures MayRestore(m, tree, confirmations, running) && DumpIsCopied(tree, run) ==>
      if run.restored then target.database == Some(tree["postgres.dump"]) && target.bucket == run.bucket
      else target.database == run.wreck && target.bucket == old(target.bucket)
    ensures target.database != old(target.database) || target.bucket != old(target.bucket) ==>
      && (forall c :: c in confirmations ==> c.actual != "" && c.repeated == Some(c.actual))
      && running !! {"api", "web", "knowledge-ingest-worker", "outbox-dispatcher", "bootstrap", "migrate"}
    ensures ok ==> run.revision.Some? && m.alembicRevision == Str(Strip(run.revision.value))
    ensures ok ==> target.bucket.Keys == Expected(m.files.records).Keys
    ensures ok && CollisionFree(tree, target.bucket) ==> (target.bucket == Objects(tree) <==> RecordsObjects(m.files.records, tree))
  {
    hide Accepted, ReadsBack, Objects, Expected, CollisionFree, Strip, AllConfirmed, APPLICATION_SERVICES, RecordsObjects;
    GuardsMean(confirmations, running);
    var validation := ValidateBackupManifest(m, Some(tree));
    if validation.Err? { return false; }
    var confirmed := ConfirmTarget(confirmations);
    if !confirmed { return false; }
    if !(running !! APPLICATION_SERVICES) { return false; }
    if "postgres" !in running || "minio" !in running { return false; }
    assert MayRestore(m, tree, confirmations, running);
    if !DumpIsCopied(tree, run) { return false; }
    AcceptedHasRecords(m, tree);
    if !run.restored {
      target.database := run.wreck;
      return false;
    }
    target.database := Some(tree["postgres.dump"]);
    target.bucket := run.bucket;
    if !run.mirrored || !SameRevision(m, run.revision) || !run.readBack { return false; }
    ok := VerifyObjectReadback(m.files.records, target.bucket);
    if ok {
      ReadbackNames(m.files.records, target.bucket);
      if CollisionFree(tree, target.bucket) {
        ReadbackIsFaithful(m.files.records, tree, target.bucket);
      }
    }
  }

  // -- From a deployment to its backup --

  // What `create_backup` finds: the dump, the revision, the bucket's objects.
  datatype Deployment = Deployment(dump: Bytes, revision: string, revisionFile: Bytes, objects: Tree)

  function BackupPaths(d: Deployment): set<string> {
    {"postgres.dump", "alembic-revision.txt"} + set k | k in d.objects :: OBJECT_PREFIX + k
  }

  // The backup directory just before the manifest is built.
  function BackupTree(d: Deployment): (r: Tree)
  {
    map p | p in BackupPaths(d) ::
      if p == "postgres.dump" then d.dump
      else if p == "alembic-revision.txt" then d.revisionFile
      else if RemovePrefix(p, OBJECT_PREFIX) in d.objects then d.objects[RemovePrefix(p, OBJECT_PREFIX)]
      else []
  }

  lemma NotAnObject(k: string)
    ensures OBJECT_PREFIX + k != "postgres.dump" && OBJECT_PREFIX + k != "alembic-revision.txt"
    ensures !(OBJECT_PREFIX <= "postgres.dump") && !(OBJECT_PREFIX <= "alembic-revision.txt")
  {
    assert (OBJECT_PREFIX + k)[0] == 'o' == OBJECT_PREFIX[0];
    assert "postgres.dump"[0] == 'p' && "alembic-revision.txt"[0] == 'a';
  }

  // The object part of the backup is the bucket it was taken from.
  lemma BackupHoldsObjects(d: Deployment)
    ensures Objects(BackupTree(d)) == d.objects
  {
    hide Objects;
    var tree := BackupTree(d);
    forall k
      ensures k in Objects(tree) <==> k in d.objects
      ensures k in d.objects ==> k in Objects(tree) && Objects(tree)[k] == d.objects[k] {
      ObjectsAre(tree, k);
      NotAnObject(k);
      RemovePrefixMeans(k, OBJECT_PREFIX);
      if OBJECT_PREFIX + k in tree {
        var k' :| k' in d.objects && OBJECT_PREFIX + k' == OBJECT_PREFIX + k;
        RemovePrefixMeans(k', OBJECT_PREFIX);
      }
    }
    assert Objects(tree).Keys == d.objects.Keys;
  }

  // The object's name ends in whitespace.
  predicate EndsInSpace(k: string) {
    k != "" && IsSpace(k[|k| - 1])
  }

  lemma BackupIsListing(d: Deployment)
    requires Listing(d.objects)
    ensures Listing(BackupTree(d))
  {
    hide Clean, OBJECT_PREFIX, Parts, BaseName, Trimmed;
    DatabaseFilesAreClean();
    forall p | p in BackupPaths(d) ensures Clean(p) {
      if p != "postgres.dump" && p != "alembic-revision.txt" {
        var k :| k in d.objects && p == OBJECT_PREFIX + k;
        ObjectPathIsClean(k);
      }
    }
  }

  // Stored below the backup directory, only whitespace at the end of its name is at the path's end.
  lemma ObjectIsTrimmed(k: string)
    requires k != ""
    ensures Trimmed(OBJECT_PREFIX + k) <==> !EndsInSpace(k)
  {
    var p := OBJECT_PREFIX + k;
    assert p[0] == OBJECT_PREFIX[0] == 'o' && p[|p| - 1] == k[|k| - 1];
  }

  lemma ObjectBaseName(k: string)
    requires Clean(k)
    ensures BaseName(OBJECT_PREFIX + k) == BaseName(k)
  {
    PartsBelow("object-storage", k);
    assert OBJECT_PREFIX + k == "object-storage" + "/" + k;
    assert Parts(k) != [];
  }

  lemma DumpIsStored(d: Deployment, written: Bytes)
    ensures var stored := BackupTree(d)[MANIFEST_NAME := written];
      "postgres.dump" in stored && stored["postgres.dump"] == d.dump
  {
    assert MANIFEST_NAME[0] == 'b' && "postgres.dump"[0] == 'p';
  }

  lemma NotEmpty(k: string, t: Tree)
    requires Listing(t) && k in t
    ensures k != "" && Clean(k)
  {
  }

  ghost predicate Enumerates(listing: seq<string>, tree: Tree) {
    NoRepeat(listing) && forall p :: p in listing <==> p in tree
  }

  lemma EnumeratesIs(listing: seq<string>, tree: Tree)
    requires Enumerates(listing, tree)
    ensures NoRepeat(listing) && forall p :: p in listing <==> p in tree
  {
  }

  lemma BackupReady(d: Deployment, b: Backup, listing: seq<string>)
    requires Listing(d.objects) && Enumerates(listing, BackupTree(d)) && forall k :: k in d.objects ==> !EndsInSpace(k)
    requires !Blank(b.backupId) && !Blank(b.platformVersion) && !Blank(b.alembicRevision) && b.rpo > 0 && b.rto > 0
    requires Seconds(b.startedAt) < Seconds(b.finishedAt)
    ensures Listing(BackupTree(d)) && TrimmedPaths(listing) && Usable(BackupTree(d), Recorded(BackupTree(d), listing), b)
  {
    hide Recorded, Trimmed, Clean, BaseName, Blank, EndsInSpace;
    BackupIsListing(d);
    DatabaseFilesAreClean();
    RecordedAre(BackupTree(d), listing);
    forall k | k in d.objects ensures Trimmed(OBJECT_PREFIX + k) {
      NotEmpty(k, d.objects);
      ObjectIsTrimmed(k);
    }
  }

  lemma ManifestEnds()
    ensures !EndsInSpace(MANIFEST_NAME)
  {
  }

  // A bucket with a name that ends in whitespace makes an invalid backup.
  lemma BackupRefused(d: Deployment, b: Backup, listing: seq<string>, written: Bytes, k: string)
    requires Listing(d.objects) && Enumerates(listing, BackupTree(d)) && k in d.objects && EndsInSpace(k)
    ensures var tree := BackupTree(d);
      !Accepted(ManifestOf(tree, Recorded(tree, listing), b), Some(tree[MANIFEST_NAME := written]))
  {
    hide Recorded, Trimmed, Clean, BaseName, Accepted, ManifestOf;
    var tree, p := BackupTree(d), OBJECT_PREFIX + k;
    RecordedAre(tree, listing);
    NotEmpty(k, d.objects);
    ObjectIsTrimmed(k);
    ObjectBaseName(k);
    BaseNameEnds(k);
    ManifestEnds();
    FileAtTop(MANIFEST_NAME);
    assert p in tree && OBJECT_PREFIX <= p;
    UntrimmedObjectIsRefused(tree, Recorded(tree, listing), b, written, p);
  }

  lemma ManifestNames(d: Deployment)
    requires Listing(d.objects)
    ensures (forall p :: p in BackupTree(d) && OBJECT_PREFIX <= p ==> BaseName(p) != MANIFEST_NAME)
       <==> forall k :: k in d.objects ==> BaseName(k) != MANIFEST_NAME
  {
    hide BaseName, Clean;
    NotAnObject("");
    forall k | k in d.objects
      ensures BaseName(OBJECT_PREFIX + k) == BaseName(k) && OBJECT_PREFIX + k in BackupTree(d) && OBJECT_PREFIX <= OBJECT_PREFIX + k {
      NotEmpty(k, d.objects);
      ObjectBaseName(k);
    }
  }

  // Everything a backup and restore with commands that do their work leads to. When no object's
  // name ends in whitespace the backup is accepted, and the restore fills the target with the
  // deployment's dump and objects; otherwise it is refused and the target stays as it was. The
  // restore reports success exactly when moreover no object is called like the manifest.
  method BackupThenRestore(d: Deployment, b: Backup, listing: seq<string>, written: Bytes, confirmations: seq<Confirmation>, running: set<string>, target: Target)
    returns (ok: bool)
    requires Listing(d.objects) && Enumerates(listing, BackupTree(d))
    requires ClockText(Seconds(b.startedAt)) && ClockText(Seconds(b.finishedAt)) && Seconds(b.startedAt) < Seconds(b.finishedAt)
    requires !Blank(b.backupId) && !Blank(b.platformVersion) && b.rpo > 0 && b.rto > 0
    requires b.alembicRevision == d.revision && !Blank(d.revision) && Trimmed(d.revision)
    requires AllConfirmed(confirmations) && running !! APPLICATION_SERVICES && "postgres" in running && "minio" in running
    modifies target
    ensures var plain := forall k :: k in d.objects ==> !EndsInSpace(k);
      && target.database == (if plain then Some(d.dump) else old(target.database))
      && target.bucket == (if plain then d.objects else old(target.bucket))
      && (ok <==> plain && forall k :: k in d.objects ==> BaseName(k) != "backup-manifest.json")
  {
    hide Accepted, ReadsBack, Objects, BackupTree, Listing, Recorded, Usable, BaseName, Trimmed, Strip, Clean, EndsInSpace;
    hide APPLICATION_SERVICES, AllConfirmed, CollisionFree, Expected, RecordsObjects, Enumerates;
    var tree := BackupTree(d);
    RecordedAre(tree, listing);
    EnumeratesIs(listing, tree);
    var m := BuildManifest(tree, listing, b);
    var stored := tree[MANIFEST_NAME := written];
    BackupHoldsObjects(d);
    DumpIsStored(d, written);
    TrimmedIsStripped(d.revision);
    ManifestNames(d);
    if forall k :: k in d.objects ==> !EndsInSpace(k) {
      BackupReady(d, b, listing);
      BackupRestoresExactly(tree, listing, b, written);
    } else {
      var k :| k in d.objects && EndsInSpace(k);
      BackupRefused(d, b, listing, written, k);
    }
    SameObjects(tree, written);
    var run := Commands(true, true, None, true, Objects(stored), Some(d.revision), true);
    ok := RestoreCanonicalData(m, stored, confirmations, running, run, target);
  }
}
