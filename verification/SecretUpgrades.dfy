// What the upgrade and the downgrade mean for a whole database.
module SecretUpgrades {
  import opened Results
  import opened JsonValues
  import opened SecretPayloads
  import opened SecretRoundTrips
  import opened SecretConflicts
  import opened SecretPaths
  import opened CellRewriting
  import opened SecretDatabase

  // -- One cell --

  ghost predicate LegacyNormalCell(cell: Cell) {
    match cell
    case Doc(payload) => LegacyNormal(payload)
    case Text(raw) => LegacySpelled(Str(raw))
  }

  lemma CellRoundTrips(cell: Cell, resolve: Resolver)
    requires Lawful(resolve) && (DocCell(cell) || cell.Text?) && MigrateCell(cell, resolve).Ok?
    ensures var up := MigrateCell(cell, resolve).value;
      && MigrateCell(up, resolve) == Ok(up)
      && RestoreCell(up).Ok? && MigrateCell(RestoreCell(up).value, resolve) == Ok(up)
      && (RestoreCell(up).value == cell <==> LegacyNormalCell(cell))
  {
    match cell
    case Doc(payload) =>
      MigrateIsIdempotent(payload, resolve);
      MigrateRestoreMigrate(payload, resolve);
      RoundTripExactly(payload, resolve);
    case Text(raw) =>
      assert LawfulAt(resolve, raw);
      var w := MigrateRef(Str(raw), resolve).value;
      RefMigrates(Str(raw), resolve);
      RefRestores(w, resolve);
      RefRoundTrip(Str(raw), resolve);
  }

  lemma TargetedCell(tables: Tables, t: string, i: nat, c: string)
    requires Schema(tables) && t in tables && i < |tables[t]| && c in tables[t][i].cells && Target(t, c) in TARGETS
    ensures DocCell(tables[t][i].cells[c]) || tables[t][i].cells[c].Text?
  {
    hide JSON_TARGETS, PROVIDER_CREDENTIAL, ENDPOINT_SECRET;
    var target := Target(t, c);
    if target in JSON_TARGETS {
      assert DocColumn(tables, target);
    }
  }

  // What holds of every targeted cell of an upgradable database.
  lemma TargetedCellRoundTrips(tables: Tables, secrets: seq<Secret>, t: string, i: nat, c: string)
    requires Schema(tables) && Accepts(tables, TARGETS, Up(secrets))
    requires t in tables && i < |tables[t]| && c in tables[t][i].cells && Target(t, c) in TARGETS
    ensures var row, now := tables[t][i], RewriteTables(tables, TARGETS, Up(secrets))[t][i];
      && CellResult(row, c, Up(secrets)) == Ok(now.cells[c])
      && CellResult(now, c, Up(secrets)) == Ok(now.cells[c])
      && GoesBack(now, c, Down(), Up(secrets))
      && (RestoreCell(now.cells[c]) == Ok(row.cells[c]) <==> LegacyNormalCell(row.cells[c]))
  {
    hide TARGETS, Schema;
    var row := tables[t][i];
    var resolve := RowResolver(secrets, row.tenant, row.workspace);
    CellwiseEffect(tables, TARGETS, Up(secrets), t, i, c);
    TargetedCell(tables, t, i, c);
    ScopedResolverIsLawful(LiveIds(secrets, row.tenant, row.workspace));
    assert CellResult(row, c, Up(secrets)) == MigrateCell(row.cells[c], resolve);
    CellRoundTrips(row.cells[c], resolve);
  }

  // The id of an undeleted secret of the tenant and workspace.
  predicate InScope(id: string, secrets: seq<Secret>, tenant: string, workspace: string) {
    Secret(id, tenant, workspace, false) in secrets
  }

  function RowScope(secrets: seq<Secret>, tenant: string, workspace: string): Scope {
    id => InScope(id, secrets, tenant, workspace)
  }

  lemma LiveExactly(id: string, secrets: seq<Secret>, tenant: string, workspace: string)
    ensures id in LiveIds(secrets, tenant, workspace) <==> InScope(id, secrets, tenant, workspace)
  {
    if InScope(id, secrets, tenant, workspace) {
      var s := Secret(id, tenant, workspace, false);
      assert s in secrets && s.id == id;
    }
  }

  // The resolver of a row accepts a text exactly when it spells the well-formed id of an undeleted
  // secret of the row's own tenant and workspace, and then answers that id; otherwise its error
  // says whether the spelling or the scope is at fault.
  lemma ResolverServes(secrets: seq<Secret>, tenant: string, workspace: string)
    ensures Serves(RowResolver(secrets, tenant, workspace), RowScope(secrets, tenant, workspace))
  {
    var resolve, live := RowResolver(secrets, tenant, workspace), LiveIds(secrets, tenant, workspace);
    forall raw
      ensures resolve(raw) ==
        if !IsSecretId(Candidate(raw)) then Err(InvalidReference)
        else if !InScope(Candidate(raw), secrets, tenant, workspace) then Err(OutOfScope)
        else Ok(Candidate(raw)) {
      LiveExactly(Candidate(raw), secrets, tenant, workspace);
    }
  }

  // So every undeleted secret can be referred to, plainly or with the legacy prefix.
  lemma LiveSecretResolves(secrets: seq<Secret>, secret: Secret)
    requires secret in secrets && !secret.deleted && IsSecretId(secret.id)
    ensures var resolve := RowResolver(secrets, secret.tenant, secret.workspace);
      resolve(secret.id) == Ok(secret.id) && resolve("secret:" + secret.id) == Ok(secret.id)
  {
    hide Candidate, IsSecretId, RowResolver;
    ResolverServes(secrets, secret.tenant, secret.workspace);
    IdResolves(secret.id);
    assert secret == Secret(secret.id, secret.tenant, secret.workspace, false);
    assert RowScope(secrets, secret.tenant, secret.workspace)(secret.id);
  }

  // When a single cell migrates in its row's scope.
  ghost predicate AcceptableCell(cell: Cell, scope: Scope) {
    match cell
    case Doc(payload) => Acceptable(payload, scope)
    case Text(raw) => IsSecretId(Candidate(raw)) && scope(Candidate(raw))
  }

  lemma CellMigratesExactly(cell: Cell, resolve: Resolver, scope: Scope)
    requires Lawful(resolve) && Serves(resolve, scope) && (DocCell(cell) || cell.Text?)
    ensures MigrateCell(cell, resolve).Ok? <==> AcceptableCell(cell, scope)
  {
    hide IsSecretId, Candidate;
    if cell.Doc? {
      MigratesExactly(cell.json, resolve, scope);
    }
  }

  // -- Whole databases --

  lemma RowResolverIsLawful(secrets: seq<Secret>, tenant: string, workspace: string)
    ensures Lawful(RowResolver(secrets, tenant, workspace))
  {
    ScopedResolverIsLawful(LiveIds(secrets, tenant, workspace));
  }

  // The exact condition under which a database can be upgraded, over the secrets table.
  lemma UpgradableExactly(tables: Tables, secrets: seq<Secret>)
    requires Schema(tables)
    ensures Accepts(tables, TARGETS, Up(secrets)) <==>
      forall t, i, c :: t in tables && 0 <= i < |tables[t]| && c in tables[t][i].cells && Target(t, c) in TARGETS ==>
        AcceptableCell(tables[t][i].cells[c], RowScope(secrets, tables[t][i].tenant, tables[t][i].workspace))
  {
    hide TARGETS, Schema, RowResolver, RowScope, AcceptableCell, MigrateCell;
    forall t, i, c | t in tables && 0 <= i < |tables[t]| && c in tables[t][i].cells && Target(t, c) in TARGETS
      ensures CellResult(tables[t][i], c, Up(secrets)).Ok? <==>
        AcceptableCell(tables[t][i].cells[c], RowScope(secrets, tables[t][i].tenant, tables[t][i].workspace)) {
      var row := tables[t][i];
      TargetedCell(tables, t, i, c);
      RowResolverIsLawful(secrets, row.tenant, row.workspace);
      ResolverServes(secrets, row.tenant, row.workspace);
      CellMigratesExactly(row.cells[c], RowResolver(secrets, row.tenant, row.workspace), RowScope(secrets, row.tenant, row.workspace));
      assert CellResult(row, c, Up(secrets)) == MigrateCell(row.cells[c], RowResolver(secrets, row.tenant, row.workspace));
    }
  }

  // An upgraded database is a fixed point of the upgrade.
  lemma UpgradeIsIdempotent(tables: Tables, secrets: seq<Secret>)
    requires Schema(tables) && Accepts(tables, TARGETS, Up(secrets))
    ensures var now: Tables := RewriteTables(tables, TARGETS, Up(secrets));
      Accepts(now, TARGETS, Up(secrets)) && RewriteTables(now, TARGETS, Up(secrets)) == now
  {
    hide TARGETS, Schema;
    var now: Tables := RewriteTables(tables, TARGETS, Up(secrets));
    forall t, i, c | t in now && 0 <= i < |now[t]| && c in now[t][i].cells && Target(t, c) in TARGETS
      ensures CellResult(now[t][i], c, Up(secrets)) == Ok(now[t][i].cells[c]) {
      TargetedCellRoundTrips(tables, secrets, t, i, c);
    }
    FixedCells(now, TARGETS, Up(secrets));
  }

  // Upgrade, downgrade, upgrade: every step is accepted, and the result is that of one upgrade.
  lemma UpDownUp(tables: Tables, secrets: seq<Secret>)
    requires Schema(tables) && Accepts(tables, TARGETS, Up(secrets))
    ensures var now: Tables := RewriteTables(tables, TARGETS, Up(secrets));
      && Accepts(now, TARGETS, Down())
      && Accepts(RewriteTables(now, TARGETS, Down()), TARGETS, Up(secrets))
      && RewriteTables(RewriteTables(now, TARGETS, Down()), TARGETS, Up(secrets)) == now
  {
    hide TARGETS, Schema;
    var now: Tables := RewriteTables(tables, TARGETS, Up(secrets));
    forall t, i, c | t in now && 0 <= i < |now[t]| && c in now[t][i].cells && Target(t, c) in TARGETS
      ensures GoesBack(now[t][i], c, Down(), Up(secrets)) {
      TargetedCellRoundTrips(tables, secrets, t, i, c);
    }
    ThereAndBack(now, TARGETS, Down(), Up(secrets));
  }

  // Downgrading an upgraded database gives the original back exactly when every targeted cell
  // was legacy-normal.
  lemma DowngradeInvertsExactly(tables: Tables, secrets: seq<Secret>)
    requires Schema(tables) && Accepts(tables, TARGETS, Up(secrets))
    ensures RewriteTables(RewriteTables(tables, TARGETS, Up(secrets)), TARGETS, Down()) == tables <==>
      forall t, i, c :: t in tables && 0 <= i < |tables[t]| && c in tables[t][i].cells && Target(t, c) in TARGETS ==>
        LegacyNormalCell(tables[t][i].cells[c])
  {
    hide TARGETS, Schema;
    var now: Tables := RewriteTables(tables, TARGETS, Up(secrets));
    var back: Tables := RewriteTables(now, TARGETS, Down());
    UpDownUp(tables, secrets);
    forall t, i, c | t in tables && 0 <= i < |tables[t]| && c in tables[t][i].cells && Target(t, c) in TARGETS
      ensures Ok(back[t][i].cells[c]) == RestoreCell(now[t][i].cells[c])
      ensures back[t][i].cells[c] == tables[t][i].cells[c] <==> LegacyNormalCell(tables[t][i].cells[c]) {
      TargetedCellRoundTrips(tables, secrets, t, i, c);
      CellwiseEffect(now, TARGETS, Down(), t, i, c);
    }
    if forall t, i, c :: t in tables && 0 <= i < |tables[t]| && c in tables[t][i].cells && Target(t, c) in TARGETS ==>
        LegacyNormalCell(tables[t][i].cells[c]) {
      forall t, i | t in tables && 0 <= i < |tables[t]| ensures back[t][i].cells == tables[t][i].cells {
        forall c | c in tables[t][i].cells ensures back[t][i].cells[c] == tables[t][i].cells[c] {
          CellwiseEffect(tables, TARGETS, Up(secrets), t, i, c);
          CellwiseEffect(now, TARGETS, Down(), t, i, c);
        }
      }
      SameCells(back, tables);
    }
  }

  // The text, or the secret at the path of the document if there is one.
  ghost predicate CellInScope(cell: Cell, path: seq<Step>, secrets: seq<Secret>, tenant: string, workspace: string) {
    match cell
    case Text(id) => InScope(id, secrets, tenant, workspace)
    case Doc(w) => At(w, path).Some? && IsSecret(w, path) ==>
      At(w, path).value.Str? && InScope(At(w, path).value.s, secrets, tenant, workspace)
  }

  // After the upgrade, every secret position at any depth of a targeted document, and every
  // targeted text, names an undeleted secret of the row's own tenant and workspace.
  lemma UpgradedSecretsAreInScope(tables: Tables, secrets: seq<Secret>, t: string, i: nat, c: string, path: seq<Step>)
    requires Schema(tables) && Accepts(tables, TARGETS, Up(secrets))
    requires t in tables && i < |tables[t]| && c in tables[t][i].cells && Target(t, c) in TARGETS
    ensures c in RewriteTables(tables, TARGETS, Up(secrets))[t][i].cells
    ensures CellInScope(RewriteTables(tables, TARGETS, Up(secrets))[t][i].cells[c], path, secrets, tables[t][i].tenant, tables[t][i].workspace)
  {
    hide TARGETS, Schema;
    var row := tables[t][i];
    var live := LiveIds(secrets, row.tenant, row.workspace);
    CellwiseEffect(tables, TARGETS, Up(secrets), t, i, c);
    TargetedCell(tables, t, i, c);
    ScopedResolverIsLawful(live);
    assert CellResult(row, c, Up(secrets)) == MigrateCell(row.cells[c], ScopedResolver(live));
    match row.cells[c]
    case Text(raw) =>
    case Doc(v) =>
      MigrateIsCanonical(v, ScopedResolver(live));
      var w := Migrate(v, ScopedResolver(live)).value;
      if At(w, path).Some? && IsSecret(w, path) {
        SecretsAreLive(w, path, ScopedResolver(live));
      }
  }

  lemma SameLiveIds(secrets: seq<Secret>, secrets': seq<Secret>, tenant: string, workspace: string)
    requires forall s: Secret :: s.tenant == tenant && s.workspace == workspace ==> (s in secrets <==> s in secrets')
    ensures LiveIds(secrets, tenant, workspace) == LiveIds(secrets', tenant, workspace)
  {
    forall id ensures id in LiveIds(secrets, tenant, workspace) <==> id in LiveIds(secrets', tenant, workspace) {
      if id in LiveIds(secrets, tenant, workspace) {
        assert Secret(id, tenant, workspace, false) in secrets';
      }
      if id in LiveIds(secrets', tenant, workspace) {
        assert Secret(id, tenant, workspace, false) in secrets;
      }
    }
  }

  // Secrets of other scopes have no say in a cell: two secret tables that agree on the secrets of
  // a tenant and workspace treat every cell of it alike, acceptance and error included.
  lemma OtherScopesDoNotMatter(secrets: seq<Secret>, secrets': seq<Secret>, row: Row, c: string)
    requires c in row.cells
    requires forall s: Secret :: s.tenant == row.tenant && s.workspace == row.workspace ==> (s in secrets <==> s in secrets')
    ensures CellResult(row, c, Up(secrets)) == CellResult(row, c, Up(secrets'))
  {
    SameLiveIds(secrets, secrets', row.tenant, row.workspace);
    var cell := row.cells[c];
    assert Up(secrets)(row.tenant, row.workspace, cell) == MigrateCell(cell, RowResolver(secrets, row.tenant, row.workspace));
    assert Up(secrets')(row.tenant, row.workspace, cell) == MigrateCell(cell, RowResolver(secrets', row.tenant, row.workspace));
  }

  // -- Runs of the command --

  // An upgrade of an upgraded database succeeds, changes nothing and sends no statement.
  method UpgradeAgain(db: Database, ghost original: Tables) returns (r: Result<(), Failure>)
    requires db.Valid() && Schema(original) && Accepts(original, TARGETS, Up(db.secrets))
    requires db.tables == RewriteTables(original, TARGETS, Up(db.secrets))
    modifies db`tables, db`log
    ensures db.Valid() && r.Ok? && db.tables == old(db.tables) && db.log == old(db.log)
  {
    hide TARGETS, Schema, Accepts, RewriteTables;
    UpgradeIsIdempotent(original, db.secrets);
    r := db.RunUpgrade();
  }

  // `alembic upgrade`, `downgrade`, `upgrade`: after a first success everything succeeds, and the
  // state is that of the first upgrade.
  method UpgradeDowngradeUpgrade(db: Database)
    returns (r: Result<(), Failure>, down: Result<(), Failure>, up: Result<(), Failure>)
    requires db.Valid()
    modifies db`tables, db`log
    ensures db.Valid() && (r.Ok? <==> Accepts(old(db.tables), TARGETS, Up(db.secrets)))
    ensures r.Ok? ==> down.Ok? && up.Ok?
    ensures db.tables == if r.Ok? then RewriteTables(old(db.tables), TARGETS, Up(db.secrets)) else old(db.tables)
  {
    hide TARGETS, Schema, Accepts, RewriteTables;
    r := db.RunUpgrade();
    down, up := r, r;
    if r.Ok? {
      UpDownUp(old(db.tables), db.secrets);
      down := db.RunDowngrade();
      up := db.RunUpgrade();
    }
  }
}
