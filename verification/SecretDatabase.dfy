// The scoped-secret migration over a whole database: the column loops, `upgrade` and `downgrade`,
// and the transaction Alembic runs them in.
module SecretDatabase {
  import opened Results
  import opened JsonValues
  import opened SecretPayloads
  import opened SecretRoundTrips
  import opened SecretEquality
  import opened CellRewriting

  datatype Secret = Secret(id: string, tenant: string, workspace: string, deleted: bool)

  const JSON_TARGETS: seq<Target> := [
    Target("agents", "runtime_config_json"),
    Target("agent_versions", "spec_json"),
    Target("workflow_versions", "spec_json"),
    Target("plugins", "spec_json"),
    Target("plugins", "manifest_json"),
    Target("plugins", "metadata_json"),
    Target("plugin_versions", "spec_json"),
    Target("plugin_versions", "manifest_json"),
    Target("plugin_versions", "artifact_summary_json"),
    Target("plugin_versions", "metadata_json"),
    Target("plugin_installations", "config_json"),
    Target("plugin_installed_artifacts", "metadata_json"),
    Target("providers", "auth_config_json"),
    Target("providers", "runtime_config_json")
  ]
  const PROVIDER_CREDENTIAL: Target := Target("providers", "credential_ref")
  const ENDPOINT_SECRET: Target := Target("notification_endpoints", "secret_ref")
  const TARGETS: seq<Target> := JSON_TARGETS + [PROVIDER_CREDENTIAL] + [ENDPOINT_SECRET]

  ghost predicate NoRepeats(targets: seq<Target>) {
    forall i, j :: 0 <= i < j < |targets| ==> targets[i] != targets[j]
  }

  lemma JsonTargetsAreDistinct()
    ensures NoRepeats(JSON_TARGETS)
  {
  }

  lemma ScalarTargetsAreOthers()
    ensures PROVIDER_CREDENTIAL !in JSON_TARGETS && ENDPOINT_SECRET !in JSON_TARGETS
  {
    assert forall i :: 0 <= i < |JSON_TARGETS| ==> JSON_TARGETS[i].column != "credential_ref" && JSON_TARGETS[i].column != "secret_ref";
  }

  lemma TargetsAreDistinct()
    ensures NoRepeats(JSON_TARGETS)
    ensures PROVIDER_CREDENTIAL !in JSON_TARGETS && ENDPOINT_SECRET !in JSON_TARGETS + [PROVIDER_CREDENTIAL]
  {
    hide JSON_TARGETS;
    JsonTargetsAreDistinct();
    ScalarTargetsAreOthers();
  }

  // The columns that hold secrets, table by table.
  function SecretColumns(table: string): set<string> {
    if table == "agents" then {"runtime_config_json"}
    else if table == "agent_versions" || table == "workflow_versions" then {"spec_json"}
    else if table == "plugins" then {"spec_json", "manifest_json", "metadata_json"}
    else if table == "plugin_versions" then {"spec_json", "manifest_json", "artifact_summary_json", "metadata_json"}
    else if table == "plugin_installations" then {"config_json"}
    else if table == "plugin_installed_artifacts" then {"metadata_json"}
    else if table == "providers" then {"auth_config_json", "runtime_config_json", "credential_ref"}
    else if table == "notification_endpoints" then {"secret_ref"}
    else {}
  }

  lemma JsonTarget(i: nat)
    requires i < |JSON_TARGETS|
    ensures JSON_TARGETS[i].column in SecretColumns(JSON_TARGETS[i].table)
  {
  }

  lemma TargetIndex(table: string, column: string)
    requires column in SecretColumns(table)
    ensures Target(table, column) in TARGETS
  {
    var t := Target(table, column);
    assert
      || t == JSON_TARGETS[0] || t == JSON_TARGETS[1] || t == JSON_TARGETS[2] || t == JSON_TARGETS[3]
      || t == JSON_TARGETS[4] || t == JSON_TARGETS[5] || t == JSON_TARGETS[6] || t == JSON_TARGETS[7]
      || t == JSON_TARGETS[8] || t == JSON_TARGETS[9] || t == JSON_TARGETS[10] || t == JSON_TARGETS[11]
      || t == JSON_TARGETS[12] || t == JSON_TARGETS[13] || t == PROVIDER_CREDENTIAL || t == ENDPOINT_SECRET;
  }

  // The targets are those sixteen columns.
  lemma TargetsAre(table: string, column: string)
    ensures Target(table, column) in TARGETS <==> column in SecretColumns(table)
    ensures |TARGETS| == 16
  {
    if Target(table, column) in JSON_TARGETS {
      var i :| 0 <= i < |JSON_TARGETS| && JSON_TARGETS[i] == Target(table, column);
      JsonTarget(i);
    }
    if column in SecretColumns(table) {
      TargetIndex(table, column);
    }
  }

  // The ids the scope query can find.
  function LiveIds(secrets: seq<Secret>, tenant: string, workspace: string): set<string> {
    set s | s in secrets && s.tenant == tenant && s.workspace == workspace && !s.deleted :: s.id
  }

  // -- The two rewritings --

  function MigrateCell(cell: Cell, resolve: Resolver): Result<Cell, Failure> {
    match cell
    case Doc(payload) =>
      var migrated :- Migrate(payload, resolve);
      Ok(Doc(migrated))
    case Text(raw) =>
      var id :- resolve(raw);
      Ok(Text(id))
  }

  function RestoreCell(cell: Cell): Result<Cell, Failure> {
    match cell
    case Doc(payload) =>
      var restored :- Restore(payload);
      Ok(Doc(restored))
    case Text(raw) => Ok(Text(LegacyRef(raw)))
  }

  function RowResolver(secrets: seq<Secret>, tenant: string, workspace: string): Resolver {
    ScopedResolver(LiveIds(secrets, tenant, workspace))
  }

  function Up(secrets: seq<Secret>): Rewrite<Failure> {
    (tenant, workspace, cell) => MigrateCell(cell, RowResolver(secrets, tenant, workspace))
  }

  function Down(): Rewrite<Failure> {
    (tenant, workspace, cell) => RestoreCell(cell)
  }

  // The tests that skip a write compare order-blind, and find equal only what has not changed at all.
  lemma MigrateSkips(payload: Json, secrets: seq<Secret>, row: Row)
    requires Sound(payload) && Migrate(payload, RowResolver(secrets, row.tenant, row.workspace)).Ok?
    ensures var migrated := Migrate(payload, RowResolver(secrets, row.tenant, row.workspace)).value;
      SameValue(payload, migrated) <==> migrated == payload
  {
    var resolve := RowResolver(secrets, row.tenant, row.workspace);
    ScopedResolverIsLawful(LiveIds(secrets, row.tenant, row.workspace));
    SameValueIsReflexive(payload);
    if SameValue(payload, Migrate(payload, resolve).value) {
      MigrateSkipIsExact(payload, resolve);
    }
  }

  lemma RestoreSkips(payload: Json)
    requires Sound(payload) && Restore(payload).Ok?
    ensures SameValue(payload, Restore(payload).value) <==> Restore(payload).value == payload
  {
    SameValueIsReflexive(payload);
    if SameValue(payload, Restore(payload).value) {
      RestoreSkipIsExact(payload);
    }
  }

  lemma MigratedCell(secrets: seq<Secret>, row: Row, column: string)
    requires column in row.cells
    ensures var resolve := RowResolver(secrets, row.tenant, row.workspace);
      CellResult(row, column, Up(secrets)) ==
        match row.cells[column] {
          case Doc(payload) => if Migrate(payload, resolve).Ok? then Ok(Doc(Migrate(payload, resolve).value)) else Err(Migrate(payload, resolve).error)
          case Text(raw) => if resolve(raw).Ok? then Ok(Text(resolve(raw).value)) else Err(resolve(raw).error)
        }
  {
  }

  // One `UPDATE` statement that was sent.
  datatype Write = Write(target: Target, id: string)

  ghost predicate ChangesRow(w: Write, row: Row, f: Rewrite<Failure>) {
    && row.id == w.id && w.target.column in row.cells
    && CellResult(row, w.target.column, f).Ok?
    && CellResult(row, w.target.column, f).value != row.cells[w.target.column]
  }

  // The statement writes a cell of the given database whose rewritten value differs.
  ghost predicate Changes(w: Write, tables: Tables, f: Rewrite<Failure>) {
    exists i :: w.target.table in tables && 0 <= i < |tables[w.target.table]| && ChangesRow(w, tables[w.target.table][i], f)
  }

  // -- The schema --

  ghost predicate DocCell(cell: Cell) {
    cell.Doc? && Sound(cell.json)
  }

  // A targeted JSON column: its table exists, ids are a primary key, stored values are documents.
  ghost predicate DocColumn(tables: Tables, target: Target) {
    && target.table in tables && UniqueIds(tables[target.table])
    && forall i :: 0 <= i < |tables[target.table]| && target.column in tables[target.table][i].cells ==>
         DocCell(tables[target.table][i].cells[target.column])
  }

  ghost predicate TextColumn(tables: Tables, target: Target) {
    && target.table in tables && UniqueIds(tables[target.table])
    && forall i :: 0 <= i < |tables[target.table]| && target.column in tables[target.table][i].cells ==>
         tables[target.table][i].cells[target.column].Text?
  }

  ghost predicate DocColumns(tables: Tables, targets: seq<Target>) {
    forall target :: target in targets ==> DocColumn(tables, target)
  }

  ghost predicate Schema(tables: Tables) {
    DocColumns(tables, JSON_TARGETS) && TextColumn(tables, PROVIDER_CREDENTIAL) && TextColumn(tables, ENDPOINT_SECRET)
  }

  // A rewriting that keeps documents documents and texts texts.
  ghost predicate KeepsTypes(f: Rewrite<Failure>) {
    forall tenant, workspace, cell :: f(tenant, workspace, cell).Ok? ==>
      (cell.Text? ==> f(tenant, workspace, cell).value.Text?) && (DocCell(cell) ==> DocCell(f(tenant, workspace, cell).value))
  }

  lemma UpKeepsTypes(secrets: seq<Secret>)
    ensures KeepsTypes(Up(secrets))
  {
    forall tenant, workspace, cell | DocCell(cell) && Up(secrets)(tenant, workspace, cell).Ok?
      ensures DocCell(Up(secrets)(tenant, workspace, cell).value) {
      var resolve := RowResolver(secrets, tenant, workspace);
      ScopedResolverIsLawful(LiveIds(secrets, tenant, workspace));
      MigrateIsCanonical(cell.json, resolve);
      CanonicalIsSound(Migrate(cell.json, resolve).value, resolve);
    }
  }

  lemma DownKeepsTypes()
    ensures KeepsTypes(Down())
  {
    forall tenant, workspace, cell | DocCell(cell) && Down()(tenant, workspace, cell).Ok?
      ensures DocCell(Down()(tenant, workspace, cell).value) {
      RestoreIsSound(cell.json);
    }
  }

  lemma ColumnKept(tables: Tables, targets: seq<Target>, f: Rewrite<Failure>, target: Target)
    requires KeepsTypes(f)
    ensures DocColumn(tables, target) ==> DocColumn(RewriteTables(tables, targets, f), target)
    ensures TextColumn(tables, target) ==> TextColumn(RewriteTables(tables, targets, f), target)
  {
    if target.table in tables {
      var rows, now := tables[target.table], RewriteTables(tables, targets, f)[target.table];
      assert forall i :: 0 <= i < |rows| ==> now[i].id == rows[i].id && now[i].cells.Keys == rows[i].cells.Keys;
      forall i | 0 <= i < |rows| && target.column in rows[i].cells
        ensures rows[i].cells[target.column].Text? ==> now[i].cells[target.column].Text?
        ensures DocCell(rows[i].cells[target.column]) ==> DocCell(now[i].cells[target.column]) {
      }
    }
  }

  lemma SchemaKept(tables: Tables, targets: seq<Target>, f: Rewrite<Failure>)
    requires KeepsTypes(f) && Schema(tables)
    ensures Schema(RewriteTables(tables, targets, f))
  {
    hide JSON_TARGETS, DocColumn, TextColumn;
    forall target ensures DocColumn(tables, target) ==> DocColumn(RewriteTables(tables, targets, f), target)
                  ensures TextColumn(tables, target) ==> TextColumn(RewriteTables(tables, targets, f), target) {
      ColumnKept(tables, targets, f, target);
    }
  }

  // -- Bookkeeping of the loops --

  lemma NothingDoneYet(tables: Tables, target: Target, f: Rewrite<Failure>)
    requires target.table in tables
    ensures tables == tables[target.table := Progress(target.table, tables[target.table], target.column, 0, f)]
  {
    assert Progress(target.table, tables[target.table], target.column, 0, f) == tables[target.table];
  }

  lemma NoTargets(tables: Tables, f: Rewrite<Failure>)
    ensures RewriteTables(tables, [], f) == tables && Accepts(tables, [], f)
  {
    FixedCells(tables, [], f);
  }

  // Rows of other tables have no targeted cell.
  lemma AcceptedRows(tables: Tables, target: Target, f: Rewrite<Failure>)
    requires target.table in tables
    requires forall i :: 0 <= i < |tables[target.table]| ==> RowAccepts(target.table, tables[target.table][i], [target], f)
    ensures Accepts(tables, [target], f)
  {
    forall t, i | t in tables && 0 <= i < |tables[t]| ensures RowAccepts(t, tables[t][i], [target], f) {
    }
  }

  // A list of targets is accepted only if each of them is.
  lemma AcceptsEach(tables: Tables, targets: seq<Target>, target: Target, f: Rewrite<Failure>)
    requires target in targets
    ensures Accepts(tables, targets, f) ==> Accepts(tables, [target], f)
  {
    forall t, i | t in tables && 0 <= i < |tables[t]|
      ensures RowAccepts(t, tables[t][i], targets, f) ==> RowAccepts(t, tables[t][i], [target], f) {
    }
  }

  // Every statement logged since `mark` writes one of the targets and changes its cell.
  ghost predicate SentFor(log: seq<Write>, mark: nat, targets: seq<Target>, tables: Tables, f: Rewrite<Failure>)
    requires mark <= |log|
  {
    forall w :: w in log[mark..] ==> w.target in targets && Changes(w, tables, f)
  }

  lemma NothingSent(log: seq<Write>, targets: seq<Target>, tables: Tables, f: Rewrite<Failure>)
    ensures SentFor(log, |log|, targets, tables, f)
  {
  }

  lemma SentAmong(log: seq<Write>, mark: nat, some: seq<Target>, targets: seq<Target>, tables: Tables, f: Rewrite<Failure>)
    requires mark <= |log| && SentFor(log, mark, some, tables, f) && forall target :: target in some ==> target in targets
    ensures SentFor(log, mark, targets, tables, f)
  {
  }

  lemma SentOneMore(log: seq<Write>, mark: nat, target: Target, tables: Tables, f: Rewrite<Failure>, i: nat)
    requires mark <= |log| && SentFor(log, mark, [target], tables, f)
    requires target.table in tables && i < |tables[target.table]| && target.column in tables[target.table][i].cells
    requires CellResult(tables[target.table][i], target.column, f).Ok?
    requires CellResult(tables[target.table][i], target.column, f).value != tables[target.table][i].cells[target.column]
    ensures SentFor(log + [Write(target, tables[target.table][i].id)], mark, [target], tables, f)
  {
    var w := Write(target, tables[target.table][i].id);
    assert (log + [w])[mark..] == log[mark..] + [w];
    assert ChangesRow(w, tables[target.table][i], f);
    assert w.target in [target];
  }

  // A statement about a column not yet reached changes a cell of the original database.
  lemma ChangesEarlier(w: Write, tables: Tables, targets: seq<Target>, f: Rewrite<Failure>)
    requires w.target !in targets && Changes(w, RewriteTables(tables, targets, f), f)
    ensures Changes(w, tables, f)
  {
    var now := RewriteTables(tables, targets, f);
    var i :| 0 <= i < |now[w.target.table]| && ChangesRow(w, now[w.target.table][i], f);
    assert ChangesRow(w, tables[w.target.table][i], f);
  }

  lemma SentSoFar(a: seq<Write>, b: seq<Write>, c: seq<Write>, targets: seq<Target>, target: Target, tables: Tables, f: Rewrite<Failure>)
    requires a <= b <= c && target !in targets
    requires SentFor(b, |a|, targets, tables, f) && SentFor(c, |b|, [target], RewriteTables(tables, targets, f), f)
    ensures SentFor(c, |a|, targets + [target], tables, f)
  {
    assert c[|a|..] == b[|a|..] + c[|b|..];
    forall w | w in c[|b|..] ensures Changes(w, tables, f) {
      ChangesEarlier(w, tables, targets, f);
    }
  }

  lemma NothingToSend(log: seq<Write>, mark: nat, targets: seq<Target>, tables: Tables, f: Rewrite<Failure>)
    requires mark <= |log| && SentFor(log, mark, targets, tables, f)
    requires Accepts(tables, targets, f) && RewriteTables(tables, targets, f) == tables
    ensures |log| == mark
  {
    if mark < |log| {
      var w := log[mark];
      assert w in log[mark..];
      var i :| 0 <= i < |tables[w.target.table]| && ChangesRow(w, tables[w.target.table][i], f);
      CellwiseEffect(tables, targets, f, w.target.table, i, w.target.column);
    }
  }

  // Some targeted cell cannot be rewritten, for this reason.
  ghost predicate Fails(tables: Tables, targets: seq<Target>, f: Rewrite<Failure>, e: Failure) {
    exists t: string, i: int, c: string :: t in tables && 0 <= i < |tables[t]| && c in tables[t][i].cells && Target(t, c) in targets
      && CellResult(tables[t][i], c, f) == Err(e)
  }

  lemma CellFails(tables: Tables, target: Target, f: Rewrite<Failure>, i: nat, e: Failure)
    requires target.table in tables && i < |tables[target.table]| && target.column in tables[target.table][i].cells
    requires CellResult(tables[target.table][i], target.column, f) == Err(e)
    ensures Fails(tables, [target], f, e) && !Accepts(tables, [target], f)
  {
    assert !RowAccepts(target.table, tables[target.table][i], [target], f);
    assert Target(target.table, target.column) == target && target in [target];
  }

  // A column not yet reached fails on the original database, and so do the targets it is among.
  lemma FailsEarlier(tables: Tables, done: seq<Target>, target: Target, targets: seq<Target>, f: Rewrite<Failure>, e: Failure)
    requires target !in done && target in targets && Fails(RewriteTables(tables, done, f), [target], f, e)
    ensures Fails(tables, targets, f, e)
  {
    var now: Tables := RewriteTables(tables, done, f);
    var t: string, i: int, c: string :| t in now && 0 <= i < |now[t]| && c in now[t][i].cells && Target(t, c) in [target]
      && CellResult(now[t][i], c, f) == Err(e);
    assert CellResult(tables[t][i], c, f) == Err(e);
  }

  lemma FailsAmong(tables: Tables, some: seq<Target>, targets: seq<Target>, f: Rewrite<Failure>, e: Failure)
    requires (forall target :: target in some ==> target in targets) && Fails(tables, some, f, e)
    ensures Fails(tables, targets, f, e)
  {
  }

  // The two scalar targets after the JSON ones.
  lemma TwoMoreTargets(tables: Tables, f: Rewrite<Failure>)
    ensures var first, second := JSON_TARGETS, JSON_TARGETS + [PROVIDER_CREDENTIAL];
      var one, two := RewriteTables(tables, first, f), RewriteTables(tables, second, f);
      && RewriteTables(one, [PROVIDER_CREDENTIAL], f) == two
      && RewriteTables(two, [ENDPOINT_SECRET], f) == RewriteTables(tables, TARGETS, f)
      && (Accepts(tables, TARGETS, f) <==>
           Accepts(tables, first, f) && Accepts(one, [PROVIDER_CREDENTIAL], f) && Accepts(two, [ENDPOINT_SECRET], f))
  {
    hide Accepts, RewriteTables, JSON_TARGETS, PROVIDER_CREDENTIAL, ENDPOINT_SECRET;
    var first, second := JSON_TARGETS, JSON_TARGETS + [PROVIDER_CREDENTIAL];
    TargetsAreDistinct();
    ThenTarget(tables, first, PROVIDER_CREDENTIAL, f);
    AcceptsAlso(tables, first, PROVIDER_CREDENTIAL, f);
    ThenTarget(tables, second, ENDPOINT_SECRET, f);
    AcceptsAlso(tables, second, ENDPOINT_SECRET, f);
  }

  class Database {
    var secrets: seq<Secret>
    var tables: Tables
    ghost var log: seq<Write>

    ghost predicate Valid()
      reads this
    {
      Schema(tables)
    }

    // `UPDATE table SET column = cell WHERE id = id`
    method Update(target: Target, id: string, cell: Cell)
      requires target.table in tables
      modifies this`tables, this`log
      ensures tables == old(tables)[target.table := SetCell(old(tables)[target.table], id, target.column, cell)]
      ensures log == old(log) + [Write(target, id)]
    {
      tables := tables[target.table := SetCell(tables[target.table], id, target.column, cell)];
      log := log + [Write(target, id)];
    }

    method MigrateJsonColumn(target: Target) returns (r: Result<(), Failure>)
      requires DocColumn(tables, target)
      modifies this`tables, this`log
      ensures r.Ok? <==> Accepts(old(tables), [target], Up(secrets))
      ensures r.Err? ==> Fails(old(tables), [target], Up(secrets), r.error)
      ensures r.Ok? ==> tables == RewriteTables(old(tables), [target], Up(secrets))
      ensures old(log) <= log
      ensures SentFor(log, |old(log)|, [target], old(tables), Up(secrets))
    {
      hide Progress, SetCell, Fails, SentFor, RowResolver, Migrate, Accepts, RewriteTables, MigrateCell, Up, CellResult, SameValue, Sound;
      var rows := tables[target.table];
      ghost var f := Up(secrets);
      NothingDoneYet(tables, target, f);
      NothingSent(log, [target], tables, f);
      for i := 0 to |rows|
        invariant tables == old(tables)[target.table := Progress(target.table, rows, target.column, i, f)]
        invariant forall j :: 0 <= j < i ==> RowAccepts(target.table, rows[j], [target], f)
        invariant old(log) <= log
        invariant SentFor(log, |old(log)|, [target], old(tables), f)
      {
        var row := rows[i];
        if target.column in row.cells {
          var payload := row.cells[target.column].json;
          var resolve := RowResolver(secrets, row.tenant, row.workspace);
          var result := MigratePayload(payload, resolve);
          MigratedCell(secrets, row, target.column);
          if result.Err? {
            CellFails(old(tables), target, f, i, result.error);
            return Err(result.error);
          }
          MigrateSkips(payload, secrets, row);
          if !SameValue(payload, result.value) {
            SentOneMore(log, |old(log)|, target, old(tables), f, i);
            Update(target, row.id, Doc(result.value));
            ProgressWritten(target.table, rows, target.column, i, f);
          } else {
            ProgressSkipped(target.table, rows, target.column, i, f);
          }
        } else {
          ProgressSkipped(target.table, rows, target.column, i, f);
        }
      }
      AcceptedRows(old(tables), target, f);
      ProgressDone(old(tables), target, f);
      return Ok(());
    }

    method MigrateJsonColumns(targets: seq<Target>) returns (r: Result<(), Failure>)
      requires NoRepeats(targets) && DocColumns(tables, targets)
      modifies this`tables, this`log
      ensures r.Ok? <==> Accepts(old(tables), targets, Up(secrets))
      ensures r.Err? ==> Fails(old(tables), targets, Up(secrets), r.error)
      ensures r.Ok? ==> tables == RewriteTables(old(tables), targets, Up(secrets))
      ensures old(log) <= log
      ensures SentFor(log, |old(log)|, targets, old(tables), Up(secrets))
    {
      hide Accepts, RewriteTables, DocColumn, SentFor, KeepsTypes, Fails, Up, Down;
      ghost var f := Up(secrets);
      NoTargets(tables, f);
      NothingSent(log, [], tables, f);
      UpKeepsTypes(secrets);
      for k := 0 to |targets|
        invariant tables == RewriteTables(old(tables), targets[..k], f) && Accepts(old(tables), targets[..k], f)
        invariant old(log) <= log
        invariant SentFor(log, |old(log)|, targets[..k], old(tables), f)
      {
        var target := targets[k];
        assert targets[..k + 1] == targets[..k] + [target];
        ThenTarget(old(tables), targets[..k], target, f);
        AcceptsAlso(old(tables), targets[..k], target, f);
        ColumnKept(old(tables), targets[..k], f, target);
        ghost var sent := log;
        r := MigrateJsonColumn(target);
        SentSoFar(old(log), sent, log, targets[..k], target, old(tables), f);
        if r.Err? {
          FailsEarlier(old(tables), targets[..k], target, targets, f, r.error);
          AcceptsEach(old(tables), targets, target, f);
          SentAmong(log, |old(log)|, targets[..k + 1], targets, old(tables), f);
          return;
        }
      }
      assert targets[..|targets|] == targets;
      return Ok(());
    }

    method RestoreJsonColumn(target: Target) returns (r: Result<(), Failure>)
      requires DocColumn(tables, target)
      modifies this`tables, this`log
      ensures r.Ok? <==> Accepts(old(tables), [target], Down())
      ensures r.Err? ==> Fails(old(tables), [target], Down(), r.error)
      ensures r.Ok? ==> tables == RewriteTables(old(tables), [target], Down())
      ensures old(log) <= log
    {
      hide Progress, SetCell, Fails, Restore, Accepts, RewriteTables, SameValue, Sound;
      var rows := tables[target.table];
      ghost var f := Down();
      NothingDoneYet(tables, target, f);
      for i := 0 to |rows|
        invariant tables == old(tables)[target.table := Progress(target.table, rows, target.column, i, f)]
        invariant forall j :: 0 <= j < i ==> RowAccepts(target.table, rows[j], [target], f)
        invariant old(log) <= log
      {
        var row := rows[i];
        if target.column in row.cells {
          var payload := row.cells[target.column].json;
          var result := RestorePayload(payload);
          assert CellResult(row, target.column, f) == RestoreCell(row.cells[target.column]);
          if result.Err? {
            CellFails(old(tables), target, f, i, result.error);
            return Err(result.error);
          }
          RestoreSkips(payload);
          if !SameValue(payload, result.value) {
            Update(target, row.id, Doc(result.value));
            ProgressWritten(target.table, rows, target.column, i, f);
          } else {
            ProgressSkipped(target.table, rows, target.column, i, f);
          }
        } else {
          ProgressSkipped(target.table, rows, target.column, i, f);
        }
      }
      AcceptedRows(old(tables), target, f);
      ProgressDone(old(tables), target, f);
      return Ok(());
    }

    method RestoreJsonColumns(targets: seq<Target>) returns (r: Result<(), Failure>)
      requires NoRepeats(targets) && DocColumns(tables, targets)
      modifies this`tables, this`log
      ensures r.Ok? <==> Accepts(old(tables), targets, Down())
      ensures r.Err? ==> Fails(old(tables), targets, Down(), r.error)
      ensures r.Ok? ==> tables == RewriteTables(old(tables), targets, Down())
      ensures old(log) <= log
    {
      hide Accepts, RewriteTables, DocColumn, SentFor, KeepsTypes, Fails, Up, Down;
      ghost var f := Down();
      NoTargets(tables, f);
      DownKeepsTypes();
      for k := 0 to |targets|
        invariant tables == RewriteTables(old(tables), targets[..k], f) && Accepts(old(tables), targets[..k], f)
        invariant old(log) <= log
      {
        var target := targets[k];
        assert targets[..k + 1] == targets[..k] + [target];
        ThenTarget(old(tables), targets[..k], target, f);
        AcceptsAlso(old(tables), targets[..k], target, f);
        ColumnKept(old(tables), targets[..k], f, target);
        r := RestoreJsonColumn(target);
        if r.Err? {
          FailsEarlier(old(tables), targets[..k], target, targets, f, r.error);
          AcceptsEach(old(tables), targets, target, f);
          return;
        }
      }
      assert targets[..|targets|] == targets;
      return Ok(());
    }

    method MigrateScalarColumn(target: Target) returns (r: Result<(), Failure>)
      requires TextColumn(tables, target)
      modifies this`tables, this`log
      ensures r.Ok? <==> Accepts(old(tables), [target], Up(secrets))
      ensures r.Err? ==> Fails(old(tables), [target], Up(secrets), r.error)
      ensures r.Ok? ==> tables == RewriteTables(old(tables), [target], Up(secrets))
      ensures old(log) <= log
      ensures SentFor(log, |old(log)|, [target], old(tables), Up(secrets))
    {
      hide Progress, SetCell, Fails, SentFor, RowResolver, Migrate, Accepts, RewriteTables, MigrateCell, Up, CellResult;
      var rows := tables[target.table];
      ghost var f := Up(secrets);
      NothingDoneYet(tables, target, f);
      NothingSent(log, [target], tables, f);
      for i := 0 to |rows|
        invariant tables == old(tables)[target.table := Progress(target.table, rows, target.column, i, f)]
        invariant forall j :: 0 <= j < i ==> RowAccepts(target.table, rows[j], [target], f)
        invariant old(log) <= log
        invariant SentFor(log, |old(log)|, [target], old(tables), f)
      {
        var row := rows[i];
        if target.column in row.cells {
          var payload := row.cells[target.column].text;
          var resolve := RowResolver(secrets, row.tenant, row.workspace);
          var result := resolve(payload);
          MigratedCell(secrets, row, target.column);
          if result.Err? {
            CellFails(old(tables), target, f, i, result.error);
            return Err(result.error);
          }
          if result.value != payload {
            SentOneMore(log, |old(log)|, target, old(tables), f, i);
            Update(target, row.id, Text(result.value));
            ProgressWritten(target.table, rows, target.column, i, f);
          } else {
            ProgressSkipped(target.table, rows, target.column, i, f);
          }
        } else {
          ProgressSkipped(target.table, rows, target.column, i, f);
        }
      }
      AcceptedRows(old(tables), target, f);
      ProgressDone(old(tables), target, f);
      return Ok(());
    }

    method RestoreScalarColumn(target: Target)
      requires TextColumn(tables, target)
      modifies this`tables, this`log
      ensures Accepts(old(tables), [target], Down())
      ensures tables == RewriteTables(old(tables), [target], Down())
      ensures old(log) <= log
    {
      var rows := tables[target.table];
      ghost var f := Down();
      NothingDoneYet(tables, target, f);
      for i := 0 to |rows|
        invariant tables == old(tables)[target.table := Progress(target.table, rows, target.column, i, f)]
        invariant forall j :: 0 <= j < i ==> RowAccepts(target.table, rows[j], [target], f)
        invariant old(log) <= log
      {
        hide Progress, SetCell, Fails;
        var row := rows[i];
        if target.column in row.cells {
          assert CellResult(row, target.column, f) == RestoreCell(row.cells[target.column]);
          Update(target, row.id, Text(LegacyRef(row.cells[target.column].text)));
          ProgressWritten(target.table, rows, target.column, i, f);
        } else {
          ProgressSkipped(target.table, rows, target.column, i, f);
        }
      }
      AcceptedRows(old(tables), target, f);
      ProgressDone(old(tables), target, f);
    }

    // `upgrade()`: succeeds exactly when every targeted cell migrates under its own row's scope,
    // and is then the cell-by-cell rewriting; every statement it sends changes a cell.
    method Upgrade() returns (r: Result<(), Failure>)
      requires Valid()
      modifies this`tables, this`log
      ensures r.Ok? <==> Accepts(old(tables), TARGETS, Up(secrets))
      ensures r.Err? ==> Fails(old(tables), TARGETS, Up(secrets), r.error)
      ensures r.Ok? ==> Valid() && tables == RewriteTables(old(tables), TARGETS, Up(secrets))
      ensures old(log) <= log
      ensures r.Ok? ==> SentFor(log, |old(log)|, TARGETS, old(tables), Up(secrets))
    {
      hide Accepts, RewriteTables, DocColumn, TextColumn, JSON_TARGETS, PROVIDER_CREDENTIAL, ENDPOINT_SECRET, SentFor, Fails;
      ghost var f := Up(secrets);
      ghost var first, second := JSON_TARGETS, JSON_TARGETS + [PROVIDER_CREDENTIAL];
      TargetsAreDistinct();
      UpKeepsTypes(secrets);
      TwoMoreTargets(old(tables), f);
      SchemaKept(old(tables), TARGETS, f);
      r := MigrateJsonColumns(JSON_TARGETS);
      if r.Err? {
        FailsAmong(old(tables), first, TARGETS, f, r.error);
        return;
      }
      ghost var sent := log;
      ColumnKept(old(tables), first, f, PROVIDER_CREDENTIAL);
      r := MigrateScalarColumn(PROVIDER_CREDENTIAL);
      if r.Err? {
        FailsEarlier(old(tables), first, PROVIDER_CREDENTIAL, TARGETS, f, r.error);
        return;
      }
      SentSoFar(old(log), sent, log, first, PROVIDER_CREDENTIAL, old(tables), f);
      sent := log;
      ColumnKept(old(tables), second, f, ENDPOINT_SECRET);
      r := MigrateScalarColumn(ENDPOINT_SECRET);
      if r.Err? {
        FailsEarlier(old(tables), second, ENDPOINT_SECRET, TARGETS, f, r.error);
        return;
      }
      SentSoFar(old(log), sent, log, second, ENDPOINT_SECRET, old(tables), f);
    }

    // `downgrade()`
    method Downgrade() returns (r: Result<(), Failure>)
      requires Valid()
      modifies this`tables, this`log
      ensures r.Ok? <==> Accepts(old(tables), TARGETS, Down())
      ensures r.Err? ==> Fails(old(tables), TARGETS, Down(), r.error)
      ensures r.Ok? ==> Valid() && tables == RewriteTables(old(tables), TARGETS, Down())
      ensures old(log) <= log
    {
      hide Accepts, RewriteTables, DocColumn, TextColumn, JSON_TARGETS, PROVIDER_CREDENTIAL, ENDPOINT_SECRET, Fails;
      ghost var f := Down();
      TargetsAreDistinct();
      DownKeepsTypes();
      TwoMoreTargets(old(tables), f);
      SchemaKept(old(tables), TARGETS, f);
      r := RestoreJsonColumns(JSON_TARGETS);
      if r.Err? {
        FailsAmong(old(tables), JSON_TARGETS, TARGETS, f, r.error);
        return;
      }
      ColumnKept(old(tables), JSON_TARGETS, f, PROVIDER_CREDENTIAL);
      RestoreScalarColumn(PROVIDER_CREDENTIAL);
      ColumnKept(old(tables), JSON_TARGETS + [PROVIDER_CREDENTIAL], f, ENDPOINT_SECRET);
      RestoreScalarColumn(ENDPOINT_SECRET);
    }

    // `context.begin_transaction()` around the run: a failure anywhere rolls everything back, and
    // a database the upgrade would not change is sent no statement at all.
    method RunUpgrade() returns (r: Result<(), Failure>)
      requires Valid()
      modifies this`tables, this`log
      ensures Valid() && (r.Ok? <==> Accepts(old(tables), TARGETS, Up(secrets)))
      ensures r.Err? ==> Fails(old(tables), TARGETS, Up(secrets), r.error)
      ensures tables == if r.Ok? then RewriteTables(old(tables), TARGETS, Up(secrets)) else old(tables)
      ensures r.Ok? && tables == old(tables) ==> log == old(log)
    {
      hide Accepts, RewriteTables, TARGETS, JSON_TARGETS, Schema, Fails;
      var saved := tables;
      ghost var sent := log;
      r := Upgrade();
      if r.Err? {
        tables := saved;
      } else if tables == saved {
        NothingToSend(log, |sent|, TARGETS, saved, Up(secrets));
      }
    }

    method RunDowngrade() returns (r: Result<(), Failure>)
      requires Valid()
      modifies this`tables, this`log
      ensures Valid() && (r.Ok? <==> Accepts(old(tables), TARGETS, Down()))
      ensures r.Err? ==> Fails(old(tables), TARGETS, Down(), r.error)
      ensures tables == if r.Ok? then RewriteTables(old(tables), TARGETS, Down()) else old(tables)
    {
      hide Accepts, RewriteTables, TARGETS, JSON_TARGETS, Schema, Fails;
      var saved := tables;
      r := Downgrade();
      if r.Err? {
        tables := saved;
      }
    }
  }
}
