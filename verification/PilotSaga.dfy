// Setting up a gateway pilot and tearing it down again, with a failure possible at every call.
module PilotSaga {
  import opened Results
  import opened PilotServer

  datatype Role = Primary | Failing | Unpriced

  // A configured model id: absent from the file, blank, or usable.
  datatype ModelName = Missing | Blank | Named

  datatype Config = Config(
    host: string,
    isPrivate: bool,      // private or loopback address, or `localhost`; an empty host is neither
    credential: bool,     // whether the credential the configuration asks for is there
    primary: ModelName,
    failing: bool,
    unpriced: bool)

  // The state dict: what setup created so far.
  datatype State = State(
    egressHost: Option<string>,
    secret: Option<Id>,
    provider: Option<Id>,
    models: seq<(Role, Id)>,
    virtual: Option<Id>,
    key: Option<Id>,
    budget: Option<Id>)

  const NOTHING: State := State(None, None, None, [], None, None, None)

  function ModelOf(models: seq<(Role, Id)>, role: Role): Option<Id> {
    if models == [] then None
    else if models[0].0 == role then Some(models[0].1)
    else ModelOf(models[1..], role)
  }

  // -- What a state stands for --

  function IdOf(id: Option<Id>): Id {
    if id.Some? then id.value else 0
  }

  function AddId(ids: set<Id>, id: Option<Id>): set<Id> {
    if id.Some? then ids + {id.value} else ids
  }

  function Extend<V>(m: map<Id, V>, id: Option<Id>, v: V): map<Id, V> {
    if id.Some? then m[id.value := v] else m
  }

  function ExtendModels(m: map<Id, Id>, models: seq<(Role, Id)>, provider: Id): map<Id, Id> {
    if models == [] then m
    else ExtendModels(m, models[..|models| - 1], provider)[models[|models| - 1].1 := provider]
  }

  function One(id: Option<Id>): seq<Id> {
    if id.Some? then [id.value] else []
  }

  // The targets of the virtual model: the failing one first.
  function FailoverTargets(s: State): seq<Id> {
    One(ModelOf(s.models, Failing)) + One(ModelOf(s.models, Primary))
  }

  // A world, plus everything a state records, plus a use-up of ids.
  function With(w: World, s: State, next: Id): (r: World)
    ensures r.next == next
  {
    World(
      next,
      AddId(w.secrets, s.secret),
      Extend(w.providers, s.provider, IdOf(s.secret)),
      ExtendModels(w.models, s.models, IdOf(s.provider)),
      Extend(w.virtuals, s.virtual, FailoverTargets(s)),
      Extend(w.keys, s.key, true),
      Extend(w.budgets, s.budget, IdOf(s.key)),
      w.allowlist + (if s.egressHost.Some? then [s.egressHost.value] else []),
      w.blocklist)
  }

  predicate Within(id: Option<Id>, low: Id, high: Id) {
    id.Some? ==> low <= id.value < high
  }

  ghost predicate FreshModels(models: seq<(Role, Id)>, low: Id, high: Id) {
    && (forall i :: 0 <= i < |models| ==> low <= models[i].1 < high)
    && forall i, j :: 0 <= i < j < |models| ==> models[i].1 != models[j].1
  }

  // A state records a beginning of the sequence secret, provider, models, virtual model, key,
  // budget, under unused ids, no model id twice; the host it added was not allowed before.
  ghost predicate Recorded(s: State, w: World, next: Id) {
    && (s.provider.Some? ==> s.secret.Some?)
    && (s.models != [] ==> s.provider.Some?)
    && (s.virtual.Some? ==> ModelOf(s.models, Failing).Some? && ModelOf(s.models, Primary).Some?)
    && (s.key.Some? ==> ModelOf(s.models, Primary).Some?)
    && (s.budget.Some? ==> s.key.Some?)
    && (s.egressHost.Some? ==> s.egressHost.value !in w.allowlist)
    && w.next <= next
    && Within(s.secret, w.next, next) && Within(s.provider, w.next, next) && Within(s.virtual, w.next, next)
    && Within(s.key, w.next, next) && Within(s.budget, w.next, next)
    && FreshModels(s.models, w.next, next)
  }

  function Wanted(cfg: Config): set<Role> {
    (if cfg.primary.Named? then {Primary} else {}) + (if cfg.failing then {Failing} else {}) + (if cfg.unpriced then {Unpriced} else {})
  }

  // The models setup tries to create, in order, and whether the configuration names them.
  function Roles(cfg: Config): (r: seq<(Role, bool)>)
    ensures forall role :: (role, true) in r <==> role in Wanted(cfg)
  {
    var r := [(Primary, cfg.primary.Named?), (Failing, cfg.failing), (Unpriced, cfg.unpriced)];
    assert (Primary, cfg.primary.Named?) == r[0] && (Failing, cfg.failing) == r[1] && (Unpriced, cfg.unpriced) == r[2];
    r
  }

  // The configuration has what setup cannot do without.
  predicate Usable(cfg: Config) {
    cfg.credential && cfg.primary.Named?
  }

  // -- What setup is to do --

  function EgressPlan(cfg: Config, w: World): seq<Call> {
    if !cfg.isPrivate then []
    else if cfg.host in w.allowlist then [GetEgress]
    else [GetEgress, PutEgress(w.allowlist + [cfg.host], w.blocklist)]
  }

  // The secret gets the next id.
  function ProviderPlan(cfg: Config, next: Id): seq<Call> {
    if cfg.credential then [PostSecret, PostProvider(next)] else []
  }

  // The models in order, the first of them under the given id: none if the configuration has no
  // entry for the primary model, and one for each that it names otherwise.
  function ModelPlan(cfg: Config, first: Id): seq<(Role, Id)> {
    if cfg.primary.Missing? then []
    else if cfg.primary.Blank? then
      (if cfg.failing then [(Failing, first)] else []) + (if cfg.unpriced then [(Unpriced, if cfg.failing then first + 1 else first)] else [])
    else
      [(Primary, first)] + (if cfg.failing then [(Failing, first + 1)] else [])
      + (if cfg.unpriced then [(Unpriced, if cfg.failing then first + 2 else first + 1)] else [])
  }

  function ModelCalls(provider: Id, n: nat): (r: seq<Call>)
    ensures |r| == n
  {
    seq(n, _ => PostModel(provider))
  }

  // A virtual model that tries the failing model first, if there is one; the key; its budget.
  function AccessPlan(cfg: Config, primary: Id, next: Id): seq<Call> {
    if !cfg.primary.Named? then []
    else if cfg.failing then [PostVirtual([primary + 1, primary]), PostKey, PostBudget(next + 1)]
    else [PostKey, PostBudget(next)]
  }

  function KeyCalls(next: Id): seq<Call> {
    [PostKey, PostBudget(next)]
  }

  lemma NoAccess(cfg: Config, primary: Id, next: Id)
    requires !cfg.primary.Named?
    ensures AccessPlan(cfg, primary, next) == []
  {
  }

  lemma AccessFollows(cfg: Config, primary: Id, next: Id, before: seq<Call>)
    requires cfg.primary.Named? && before == if cfg.failing then [PostVirtual([primary + 1, primary])] else []
    ensures AccessPlan(cfg, primary, next) == before + KeyCalls(next + |before|)
  {
  }

  lemma NoModelCalls(provider: Id)
    ensures ModelCalls(provider, 0) == []
  {
  }

  lemma MoreModelCalls(provider: Id, m: nat, n: nat)
    requires m < n
    ensures ModelCalls(provider, m + 1) == ModelCalls(provider, m) + [PostModel(provider)]
    ensures ModelCalls(provider, n) == ModelCalls(provider, m + 1) + ModelCalls(provider, n - m - 1)
  {
  }

  lemma NothingForMissing(cfg: Config, first: Id)
    requires cfg.primary.Missing?
    ensures ModelPlan(cfg, first) == []
  {
  }

  // Everything after the allowlist, the secret having the given id.
  function ResourcePlan(cfg: Config, secret: Id): seq<Call> {
    if !cfg.credential then []
    else
      var n := |ModelPlan(cfg, secret + 2)|;
      [PostSecret, PostProvider(secret)] + ModelCalls(secret + 1, n) + AccessPlan(cfg, secret + 2, secret + 2 + n)
  }

  lemma ResourcePlanIs(cfg: Config, secret: Id)
    ensures var n := |ModelPlan(cfg, secret + 2)|;
      var models, access := ModelCalls(secret + 1, n), AccessPlan(cfg, secret + 2, secret + 2 + n);
      && ResourcePlan(cfg, secret) == (if cfg.credential then ProviderPlan(cfg, secret) + models + access else [])
      && (cfg.credential ==> ResourcePlan(cfg, secret) == ProviderPlan(cfg, secret) + (models + access))
      && (!cfg.credential ==> ProviderPlan(cfg, secret) == []) && (cfg.credential ==> |ProviderPlan(cfg, secret)| == 2)
  {
  }

  function SetupPlan(cfg: Config, w: World): seq<Call> {
    EgressPlan(cfg, w) + ResourcePlan(cfg, w.next)
  }

  function Place(role: Role): nat {
    match role
    case Primary => 0
    case Failing => 1
    case Unpriced => 2
  }

  lemma WantedSize(cfg: Config)
    ensures |Wanted(cfg)| == (if cfg.primary.Named? then 1 else 0) + (if cfg.failing then 1 else 0) + (if cfg.unpriced then 1 else 0)
  {
    var a := if cfg.primary.Named? then {Primary} else {};
    var b := if cfg.failing then {Failing} else {};
    var c := if cfg.unpriced then {Unpriced} else {};
    assert a !! b && (a + b) !! c && Wanted(cfg) == a + b + c;
  }

  lemma ModelPlanSize(cfg: Config, first: Id)
    requires !cfg.primary.Missing?
    ensures |ModelPlan(cfg, first)|
      == (if cfg.primary.Named? then 1 else 0) + (if cfg.failing then 1 else 0) + (if cfg.unpriced then 1 else 0)
  {
  }

  lemma ModelPlanOrder(cfg: Config, first: Id)
    ensures forall i, j :: 0 <= i < j < |ModelPlan(cfg, first)| ==> Place(ModelPlan(cfg, first)[i].0) < Place(ModelPlan(cfg, first)[j].0)
  {
  }

  lemma ModelPlanIds(cfg: Config, first: Id, i: nat)
    requires i < |ModelPlan(cfg, first)|
    ensures ModelPlan(cfg, first)[i].0 in Wanted(cfg) && ModelPlan(cfg, first)[i].1 == first + i
  {
  }

  // One model for each role that is named, in the order primary, failing, unpriced.
  lemma ModelPlanIs(cfg: Config, first: Id)
    requires !cfg.primary.Missing?
    ensures var plan := ModelPlan(cfg, first);
      && |plan| == |Wanted(cfg)| && (forall i :: 0 <= i < |plan| ==> plan[i].0 in Wanted(cfg) && plan[i].1 == first + i)
      && forall i, j :: 0 <= i < j < |plan| ==> Place(plan[i].0) < Place(plan[j].0)
  {
    hide ModelPlan, Wanted, Place;
    WantedSize(cfg);
    ModelPlanSize(cfg, first);
    ModelPlanOrder(cfg, first);
    forall i | 0 <= i < |ModelPlan(cfg, first)|
      ensures ModelPlan(cfg, first)[i].0 in Wanted(cfg) && ModelPlan(cfg, first)[i].1 == first + i {
      ModelPlanIds(cfg, first, i);
    }
  }

  lemma ModelOfThree(models: seq<(Role, Id)>, role: Role)
    requires |models| <= 3
    ensures ModelOf(models, role) ==
      if |models| > 0 && models[0].0 == role then Some(models[0].1)
      else if |models| > 1 && models[1].0 == role then Some(models[1].1)
      else if |models| > 2 && models[2].0 == role then Some(models[2].1)
      else None
  {
    if |models| > 0 {
      var rest := models[1..];
      assert ModelOf(models, role) == if models[0].0 == role then Some(models[0].1) else ModelOf(rest, role);
      if |rest| > 0 {
        var last := rest[1..];
        assert ModelOf(rest, role) == if rest[0].0 == role then Some(rest[0].1) else ModelOf(last, role);
        if |last| > 0 {
          assert |last[1..]| == 0;
        }
      }
    }
  }

  // What the plan makes of each role.
  lemma ModelPlanHas(cfg: Config, first: Id, role: Role)
    ensures ModelOf(ModelPlan(cfg, first), role).Some? <==> !cfg.primary.Missing? && role in Wanted(cfg)
    ensures cfg.primary.Named? ==> ModelOf(ModelPlan(cfg, first), Primary) == Some(first)
    ensures cfg.primary.Named? && cfg.failing ==> ModelOf(ModelPlan(cfg, first), Failing) == Some(first + 1)
  {
    hide ModelOf;
    ModelOfThree(ModelPlan(cfg, first), role);
    ModelOfThree(ModelPlan(cfg, first), Primary);
    ModelOfThree(ModelPlan(cfg, first), Failing);
  }

  // The models created for the roles that are named, under consecutive ids.
  function NamedAmong(roles: seq<(Role, bool)>, first: Id): seq<(Role, Id)> {
    if roles == [] then []
    else
      var before := NamedAmong(roles[..|roles| - 1], first);
      before + if roles[|roles| - 1].1 then [(roles[|roles| - 1].0, first + |before|)] else []
  }

  lemma {:induction false} NamedPrefix(roles: seq<(Role, bool)>, i: nat, first: Id)
    requires i <= |roles|
    ensures NamedAmong(roles[..i], first) <= NamedAmong(roles, first)
  {
    if i == |roles| {
      assert roles[..i] == roles;
    } else {
      NamedPrefix(roles[..|roles| - 1], i, first);
      assert roles[..|roles| - 1][..i] == roles[..i];
    }
  }

  lemma NoneNamed(roles: seq<(Role, bool)>, first: Id)
    ensures NamedAmong(roles[..0], first) == []
  {
  }

  // One role further.
  lemma NamedStep(roles: seq<(Role, bool)>, i: nat, first: Id)
    requires i < |roles|
    ensures var so, now := NamedAmong(roles[..i], first), NamedAmong(roles[..i + 1], first);
      && now == so + (if roles[i].1 then [(roles[i].0, first + |so|)] else [])
      && so <= NamedAmong(roles, first) && now <= NamedAmong(roles, first)
  {
    assert roles[..i + 1][..i] == roles[..i];
    NamedPrefix(roles, i, first);
    NamedPrefix(roles, i + 1, first);
  }

  lemma NamedIsPlanned(cfg: Config, first: Id)
    requires !cfg.primary.Missing?
    ensures NamedAmong(Roles(cfg), first) == ModelPlan(cfg, first)
  {
    var r := Roles(cfg);
    assert r[..3] == r && r[..3][..2] == r[..2] && r[..2][..1] == r[..1] && r[..1][..0] == [];
    assert NamedAmong(r[..1], first) == if cfg.primary.Named? then [(Primary, first)] else [];
    assert NamedAmong(r[..2], first) ==
      NamedAmong(r[..1], first) + if cfg.failing then [(Failing, first + |NamedAmong(r[..1], first)|)] else [];
  }

  lemma {:induction false} ExtendModelsHas(m: map<Id, Id>, models: seq<(Role, Id)>, provider: Id, id: Id)
    ensures id in ExtendModels(m, models, provider) <==> id in m || exists i :: 0 <= i < |models| && models[i].1 == id
    ensures id in ExtendModels(m, models, provider) ==>
      ExtendModels(m, models, provider)[id] == if exists i :: 0 <= i < |models| && models[i].1 == id then provider else m[id]
  {
    if models == [] {
    } else {
      ExtendModelsHas(m, models[..|models| - 1], provider, id);
      assert forall i :: 0 <= i < |models| - 1 ==> models[..|models| - 1][i] == models[i];
    }
  }

  lemma {:induction false} ExtendModelsSize(m: map<Id, Id>, models: seq<(Role, Id)>, provider: Id, low: Id, high: Id)
    requires FreshModels(models, low, high) && forall id :: id in m ==> id < low
    ensures |ExtendModels(m, models, provider)| == |m| + |models|
  {
    if models == [] {
    } else {
      var init, last := models[..|models| - 1], models[|models| - 1].1;
      ExtendModelsSize(m, init, provider, low, high);
      var before := ExtendModels(m, init, provider);
      ExtendModelsHas(m, init, provider, last);
      assert last !in before by {
        assert forall i :: 0 <= i < |init| ==> init[i].1 != last;
      }
      assert before[last := provider].Keys == before.Keys + {last};
      assert |before[last := provider]| == |before.Keys + {last}|;
    }
  }

  // Everything the configuration asks for has been recorded.
  ghost predicate Complete(s: State, cfg: Config, w: World) {
    && (s.egressHost.Some? <==> cfg.isPrivate && cfg.host !in w.allowlist) && (s.egressHost.Some? ==> s.egressHost.value == cfg.host)
    && s.secret.Some? && s.provider.Some? && s.key.Some? && s.budget.Some?
    && ModelOf(s.models, Primary).Some?
    && (ModelOf(s.models, Failing).Some? <==> cfg.failing) && (ModelOf(s.models, Unpriced).Some? <==> cfg.unpriced)
    && (s.virtual.Some? <==> cfg.failing)
  }

  lemma CompleteIs(s: State, cfg: Config, w: World, first: Id)
    requires s.egressHost == if cfg.isPrivate && cfg.host !in w.allowlist then Some(cfg.host) else None
    requires s.secret.Some? && s.provider.Some? && s.key.Some? && s.budget.Some? && (s.virtual.Some? <==> cfg.failing)
    requires cfg.primary.Named? && s.models == ModelPlan(cfg, first)
    ensures Complete(s, cfg, w)
  {
    hide ModelPlan;
    ModelPlanHas(cfg, first, Primary);
    ModelPlanHas(cfg, first, Failing);
    ModelPlanHas(cfg, first, Unpriced);
  }

  lemma {:induction false} ModelOfAppend(models: seq<(Role, Id)>, role: Role, m: Id, r: Role)
    ensures ModelOf(models + [(role, m)], r) ==
      if ModelOf(models, r).Some? then ModelOf(models, r) else if r == role then Some(m) else None
  {
    if models == [] {
    } else {
      assert (models + [(role, m)])[1..] == models[1..] + [(role, m)];
      ModelOfAppend(models[1..], role, m, r);
    }
  }

  lemma {:induction false} ModelOfIsRecorded(models: seq<(Role, Id)>, r: Role)
    requires ModelOf(models, r).Some?
    ensures (r, ModelOf(models, r).value) in models
  {
    if models[0].0 == r {
      assert models[0] == (r, ModelOf(models, r).value);
    } else {
      ModelOfIsRecorded(models[1..], r);
    }
  }

  // -- One call of setup at a time --

  lemma RecordSecret(w: World, s: State, next: Id)
    requires Recorded(s, w, next) && s.secret.None?
    ensures var s' := s.(secret := Some(next));
      Effect(With(w, s, next), PostSecret) == With(w, s', next + 1) && Recorded(s', w, next + 1)
  {
  }

  lemma RecordProvider(w: World, s: State, next: Id)
    requires Recorded(s, w, next) && s.secret.Some? && s.provider.None?
    ensures var s' := s.(provider := Some(next));
      Effect(With(w, s, next), PostProvider(s.secret.value)) == With(w, s', next + 1) && Recorded(s', w, next + 1)
  {
  }

  lemma RecordModel(w: World, s: State, next: Id, role: Role)
    requires Recorded(s, w, next) && s.provider.Some? && s.virtual.None? && s.key.None?
    ensures var s' := s.(models := s.models + [(role, next)]);
      Effect(With(w, s, next), PostModel(s.provider.value)) == With(w, s', next + 1) && Recorded(s', w, next + 1)
  {
    assert (s.models + [(role, next)])[..|s.models|] == s.models;
  }

  lemma RecordVirtual(w: World, s: State, next: Id)
    requires Recorded(s, w, next) && ModelOf(s.models, Failing).Some? && ModelOf(s.models, Primary).Some? && s.virtual.None?
    ensures var s', call := s.(virtual := Some(next)), PostVirtual([ModelOf(s.models, Failing).value, ModelOf(s.models, Primary).value]);
      Effect(With(w, s, next), call) == With(w, s', next + 1) && Recorded(s', w, next + 1)
  {
    assert FailoverTargets(s) == [ModelOf(s.models, Failing).value, ModelOf(s.models, Primary).value];
  }

  lemma RecordKey(w: World, s: State, next: Id)
    requires Recorded(s, w, next) && ModelOf(s.models, Primary).Some? && s.key.None?
    ensures var s' := s.(key := Some(next));
      Effect(With(w, s, next), PostKey) == With(w, s', next + 1) && Recorded(s', w, next + 1)
  {
  }

  lemma RecordBudget(w: World, s: State, next: Id)
    requires Recorded(s, w, next) && s.key.Some? && s.budget.None?
    ensures var s' := s.(budget := Some(next));
      Effect(With(w, s, next), PostBudget(s.key.value)) == With(w, s', next + 1) && Recorded(s', w, next + 1)
  {
  }

  lemma RecordedIsNumbered(w: World, s: State, next: Id)
    requires Recorded(s, w, next) && Numbered(w)
    ensures Numbered(With(w, s, next))
  {
    hide ModelOf, FailoverTargets;
    forall m: Id | m in With(w, s, next).models ensures m < next {
      ExtendModelsHas(w.models, s.models, IdOf(s.provider), m);
    }
  }

  lemma RecordedModels(w: World, s: State, next: Id)
    requires Recorded(s, w, next) && ModelsHaveProviders(w)
    ensures ModelsHaveProviders(With(w, s, next))
  {
    hide ModelOf, FailoverTargets;
    forall m: Id | m in With(w, s, next).models ensures With(w, s, next).models[m] in With(w, s, next).providers {
      ExtendModelsHas(w.models, s.models, IdOf(s.provider), m);
    }
  }

  lemma TargetsAreModels(w: World, s: State, next: Id)
    requires Recorded(s, w, next) && ModelOf(s.models, Failing).Some? && ModelOf(s.models, Primary).Some?
    ensures forall m :: m in FailoverTargets(s) ==> m in With(w, s, next).models
  {
    forall r | r == Failing || r == Primary ensures ModelOf(s.models, r).value in With(w, s, next).models {
      ModelOfIsRecorded(s.models, r);
      ExtendModelsHas(w.models, s.models, IdOf(s.provider), ModelOf(s.models, r).value);
    }
  }

  lemma RecordedVirtuals(w: World, s: State, next: Id)
    requires Recorded(s, w, next) && VirtualsHaveTargets(w)
    ensures VirtualsHaveTargets(With(w, s, next))
  {
    hide ModelOf, FailoverTargets;
    forall m: Id | m in w.models ensures m in With(w, s, next).models {
      ExtendModelsHas(w.models, s.models, IdOf(s.provider), m);
    }
    if s.virtual.Some? {
      TargetsAreModels(w, s, next);
    }
  }

  lemma RecordedOthers(w: World, s: State, next: Id)
    requires Recorded(s, w, next) && ProvidersHaveSecrets(w) && BudgetsHaveKeys(w)
    ensures ProvidersHaveSecrets(With(w, s, next)) && BudgetsHaveKeys(With(w, s, next))
  {
    hide ModelOf, FailoverTargets, ExtendModels;
  }

  lemma RecordedIsSound(w: World, s: State, next: Id)
    requires Recorded(s, w, next) && Numbered(w) && Integrity(w)
    ensures Numbered(With(w, s, next)) && Integrity(With(w, s, next))
  {
    hide With, Recorded, Numbered;
    RecordedIsNumbered(w, s, next);
    RecordedModels(w, s, next);
    RecordedVirtuals(w, s, next);
    RecordedOthers(w, s, next);
  }

  lemma WithModels(w: World, s: State, next: Id)
    requires Recorded(s, w, next) && Numbered(w)
    ensures |With(w, s, next).models| == |w.models| + |s.models|
  {
    ExtendModelsSize(w.models, s.models, IdOf(s.provider), w.next, next);
  }

  // How the resources of a complete setup hang together on the server.
  ghost predicate Connected(s: State, cfg: Config, before: World, w: World)
    requires Complete(s, cfg, before)
  {
    && s.provider.value in w.providers && w.providers[s.provider.value] == s.secret.value && s.secret.value in w.secrets
    && (forall i :: 0 <= i < |s.models| ==> s.models[i].1 in w.models && w.models[s.models[i].1] == s.provider.value)
    && (cfg.failing ==>
         && s.virtual.value in w.virtuals
         && w.virtuals[s.virtual.value] == [ModelOf(s.models, Failing).value, ModelOf(s.models, Primary).value])
    && s.key.value in w.keys && w.keys[s.key.value]
    && s.budget.value in w.budgets && w.budgets[s.budget.value] == s.key.value
    && w.allowlist == (if cfg.isPrivate && cfg.host !in before.allowlist then before.allowlist + [cfg.host] else before.allowlist)
    && w.blocklist == before.blocklist
  }

  lemma IsConnected(s: State, cfg: Config, before: World, next: Id)
    requires Complete(s, cfg, before)
    ensures Connected(s, cfg, before, With(before, s, next))
  {
    hide ModelOf, ExtendModels;
    forall i | 0 <= i < |s.models|
      ensures s.models[i].1 in ExtendModels(before.models, s.models, s.provider.value)
      ensures ExtendModels(before.models, s.models, s.provider.value)[s.models[i].1] == s.provider.value {
      ExtendModelsHas(before.models, s.models, s.provider.value, s.models[i].1);
    }
  }

  class Pilot {
    var state: State
    var file: Option<State>

    constructor ()
      ensures state == NOTHING && file == None
    {
      state, file := NOTHING, None;
    }

    method Save()
      modifies this`file
      ensures file == Some(state)
    {
      file := Some(state);
    }

    // The server is what it was before setup plus what the state records.
    ghost predicate Accounts(soit: Soit, w: World)
      reads this, soit
    {
      soit.world == With(w, state, soit.world.next) && Recorded(state, w, soit.world.next)
    }

    method AllowHost(soit: Soit, cfg: Config) returns (ok: bool)
      requires state == NOTHING
      modifies this`state, soit
      ensures Accounts(soit, old(soit.world)) && state == NOTHING.(egressHost := state.egressHost)
      ensures Followed(EgressPlan(cfg, old(soit.world)), old(soit.Now()), soit.Now())
      ensures ok <==> FineUpTo(old(soit.script), |EgressPlan(cfg, old(soit.world))|)
      ensures soit.world.next == old(soit.world.next)
      ensures ok ==> state.egressHost == if cfg.isPrivate && cfg.host !in old(soit.world).allowlist then Some(cfg.host) else None
    {
      ghost var start := soit.Now();
      NothingPlanned(start);
      if cfg.isPrivate {
        var egress := soit.Api(GetEgress);
        NextCall([], GetEgress, start, start, soit.Now());
        assert [] + [GetEgress] == [GetEgress];
        ghost var seen := soit.Now();
        var allowlist := soit.world.allowlist;
        if egress.Raised? {
          FollowedToFault([GetEgress], EgressPlan(cfg, start.world)[1..], start, seen);
          return false;
        }
        if cfg.host !in allowlist {
          var call := PutEgress(allowlist + [cfg.host], soit.world.blocklist);
          var put := soit.Api(call);
          NextCall([GetEgress], call, start, seen, soit.Now());
          assert [GetEgress] + [call] == EgressPlan(cfg, start.world);
          if put.Raised? { return false; }
          state := state.(egressHost := Some(cfg.host));
        }
      }
      return true;
    }

    method AddProvider(soit: Soit, cfg: Config, ghost w: World) returns (ok: bool)
      requires Accounts(soit, w) && state == NOTHING.(egressHost := state.egressHost)
      modifies this, soit
      ensures Accounts(soit, w) && state == old(state).(secret := state.secret, provider := state.provider)
      ensures Followed(ProviderPlan(cfg, old(soit.world.next)), old(soit.Now()), soit.Now())
      ensures ok <==> cfg.credential && FineUpTo(old(soit.script), 2)
      ensures ok ==> state.secret == Some(old(soit.world.next)) && state.provider == Some(old(soit.world.next) + 1)
      ensures ok ==> soit.world.next == old(soit.world.next) + 2
    {
      hide With, Recorded, Followed, FineUpTo;
      ghost var start := soit.Now();
      NothingPlanned(start);
      if !cfg.credential { return false; }
      RecordSecret(w, state, soit.world.next);
      var secret := soit.Api(PostSecret);
      NextCall([], PostSecret, start, start, soit.Now());
      assert [] + [PostSecret] == [PostSecret];
      ghost var seen := soit.Now();
      if secret.Raised? {
        FollowedToFault([PostSecret], [PostProvider(start.world.next)], start, seen);
        assert [PostSecret] + [PostProvider(start.world.next)] == ProviderPlan(cfg, start.world.next);
        return false;
      }
      state := state.(secret := Some(secret.id));
      Save();
      RecordProvider(w, state, soit.world.next);
      var provider := soit.Api(PostProvider(secret.id));
      NextCall([PostSecret], PostProvider(secret.id), start, seen, soit.Now());
      assert [PostSecret] + [PostProvider(secret.id)] == ProviderPlan(cfg, start.world.next);
      if provider.Raised? { return false; }
      state := state.(provider := Some(provider.id));
      Save();
      return true;
    }

    method AddModel(soit: Soit, ghost w: World, role: Role) returns (ok: bool)
      requires Accounts(soit, w) && state.provider.Some? && state.virtual.None? && state.key.None?
      modifies this, soit
      ensures Accounts(soit, w)
      ensures Followed([PostModel(old(state.provider.value))], old(soit.Now()), soit.Now()) && (ok <==> FineUpTo(old(soit.script), 1))
      ensures state == if ok then old(state).(models := old(state.models) + [(role, old(soit.world.next))]) else old(state)
      ensures soit.world.next == old(soit.world.next) + if ok then 1 else 0
    {
      hide With, Recorded, Followed, FineUpTo;
      RecordModel(w, state, soit.world.next, role);
      var model := soit.Api(PostModel(state.provider.value));
      OneCall(PostModel(state.provider.value), old(soit.Now()), soit.Now());
      if model.Raised? { return false; }
      state := state.(models := state.models + [(role, model.id)]);
      Save();
      return true;
    }

    method AddModels(soit: Soit, cfg: Config, ghost w: World) returns (ok: bool)
      requires Accounts(soit, w) && state.provider.Some? && state.models == [] && state.virtual.None? && state.key.None?
      modifies this, soit
      ensures Accounts(soit, w) && state == old(state).(models := state.models)
      ensures Followed(ModelCalls(old(state.provider.value), |ModelPlan(cfg, old(soit.world.next))|), old(soit.Now()), soit.Now())
      ensures ok <==> !cfg.primary.Missing? && FineUpTo(old(soit.script), |ModelPlan(cfg, old(soit.world.next))|)
      ensures state.models <= ModelPlan(cfg, old(soit.world.next))
      ensures ok ==> state.models == ModelPlan(cfg, old(soit.world.next)) && soit.world.next == old(soit.world.next) + |state.models|
    {
      hide With, Recorded, Followed, FineUpTo, Roles, ModelPlan, ModelCalls, NamedAmong, AfterCalls, Later;
      ghost var start, p, first := soit.Now(), state.provider.value, soit.world.next;
      NothingPlanned(start);
      NoModelCalls(p);
      if cfg.primary.Missing? {
        NothingForMissing(cfg, first);
        return false;
      }
      var roles := Roles(cfg);
      ghost var n := |ModelPlan(cfg, first)|;
      NamedIsPlanned(cfg, first);
      NoneNamed(roles, first);
      for i := 0 to |roles|
        invariant Accounts(soit, w) && state == old(state).(models := state.models)
        invariant state.models == NamedAmong(roles[..i], first) && soit.world.next == first + |state.models|
        invariant Followed(ModelCalls(p, |state.models|), start, soit.Now()) && FineUpTo(start.script, |state.models|)
      {
        var (role, named) := roles[i];
        NamedStep(roles, i, first);
        if named {
          ghost var seen, m := soit.Now(), |state.models|;
          ok := AddModel(soit, w, role);
          FollowedThen(ModelCalls(p, m), [PostModel(p)], start, seen, soit.Now());
          MoreModelCalls(p, m, n);
          if !ok {
            FollowedToFault(ModelCalls(p, m + 1), ModelCalls(p, n - m - 1), start, soit.Now());
            return;
          }
        }
      }
      assert roles[..|roles|] == roles;
      return true;
    }

    method GrantAccess(soit: Soit, cfg: Config, ghost w: World, ghost first: Id) returns (ok: bool)
      requires Accounts(soit, w) && state.virtual.None? && state.key.None? && state.budget.None?
      requires !cfg.primary.Missing? && state.models == ModelPlan(cfg, first)
      modifies this, soit
      ensures Accounts(soit, w) && state == old(state).(virtual := state.virtual, key := state.key, budget := state.budget)
      ensures Followed(AccessPlan(cfg, first, old(soit.world.next)), old(soit.Now()), soit.Now())
      ensures ok <==> cfg.primary.Named? && FineUpTo(old(soit.script), |AccessPlan(cfg, first, old(soit.world.next))|)
      ensures ok ==> state.key.Some? && state.budget.Some? && file == Some(state) && (state.virtual.Some? <==> cfg.failing)
    {
      hide With, Recorded, Followed, FineUpTo, ModelPlan, AccessPlan;
      ghost var start := soit.Now();
      NothingPlanned(start);
      // `models["primary"]` raises when the primary model was blank.
      if !cfg.primary.Named? {
        NoAccess(cfg, first, start.world.next);
        return false;
      }
      ModelPlanHas(cfg, first, Primary);
      ModelPlanHas(cfg, first, Failing);
      var primary := ModelOf(state.models, Primary).value;
      ghost var before: seq<Call> := [];
      if cfg.failing {
        var failing := ModelOf(state.models, Failing).value;
        TargetsAreModels(w, state, soit.world.next);
        RecordVirtual(w, state, soit.world.next);
        var virtual := soit.Api(PostVirtual([failing, primary]));
        before := [PostVirtual([failing, primary])];
        OneCall(before[0], start, soit.Now());
        if virtual.Raised? {
          AccessFollows(cfg, first, start.world.next, before);
          FollowedToFault(before, KeyCalls(start.world.next + 1), start, soit.Now());
          return false;
        }
        state := state.(virtual := Some(virtual.id));
        Save();
      }
      AccessFollows(cfg, first, start.world.next, before);
      ghost var middle := soit.Now();
      ok := GrantKey(soit, w);
      FollowedThen(before, KeyCalls(middle.world.next), start, middle, soit.Now());
    }

    // The API key and the budget that limits it.
    method GrantKey(soit: Soit, ghost w: World) returns (ok: bool)
      requires Accounts(soit, w) && state.key.None? && state.budget.None? && ModelOf(state.models, Primary).Some?
      modifies this, soit
      ensures Accounts(soit, w) && state == old(state).(key := state.key, budget := state.budget)
      ensures Followed(KeyCalls(old(soit.world.next)), old(soit.Now()), soit.Now()) && (ok <==> FineUpTo(old(soit.script), 2))
      ensures ok ==> state.key.Some? && state.budget.Some? && file == Some(state)
    {
      hide With, Recorded, Followed, FineUpTo;
      ghost var start := soit.Now();
      RecordKey(w, state, soit.world.next);
      var key := soit.Api(PostKey);
      OneCall(PostKey, start, soit.Now());
      ghost var seen := soit.Now();
      assert [PostKey] + [PostBudget(start.world.next)] == KeyCalls(start.world.next);
      if key.Raised? {
        FollowedToFault([PostKey], [PostBudget(start.world.next)], start, seen);
        return false;
      }
      state := state.(key := Some(key.id));
      Save();
      RecordBudget(w, state, soit.world.next);
      var budget := soit.Api(PostBudget(key.id));
      NextCall([PostKey], PostBudget(key.id), start, seen, soit.Now());
      if budget.Raised? { return false; }
      state := state.(budget := Some(budget.id));
      Save();
      return true;
    }

    // The guarded body of `setup`, leaving early where Python would raise.
    method SetupCalls(soit: Soit, cfg: Config) returns (ok: bool)
      requires state == NOTHING
      modifies this, soit
      ensures Accounts(soit, old(soit.world))
      ensures ok ==> Complete(state, cfg, old(soit.world)) && file == Some(state)
      ensures Followed(SetupPlan(cfg, old(soit.world)), old(soit.Now()), soit.Now())
      ensures ok <==> Usable(cfg) && FineUpTo(old(soit.script), |SetupPlan(cfg, old(soit.world))|)
      ensures state.models <= ModelPlan(cfg, old(soit.world.next) + 2)
      ensures ok ==> state.models == ModelPlan(cfg, old(soit.world.next) + 2)
    {
      hide With, Recorded, Followed, FineUpTo, ModelPlan, EgressPlan, ResourcePlan, Complete;
      ghost var start, w := soit.Now(), soit.world;
      ok := AllowHost(soit, cfg);
      ghost var middle := soit.Now();
      if !ok {
        FollowedToFault(EgressPlan(cfg, w), ResourcePlan(cfg, w.next), start, middle);
        return;
      }
      ok := AddResources(soit, cfg, w);
      FollowedThen(EgressPlan(cfg, w), ResourcePlan(cfg, w.next), start, middle, soit.Now());
      if ok {
        CompleteIs(state, cfg, w, w.next + 2);
      }
    }

    // Everything after the allowlist.
    method AddResources(soit: Soit, cfg: Config, ghost w: World) returns (ok: bool)
      requires Accounts(soit, w) && state == NOTHING.(egressHost := state.egressHost)
      modifies this, soit
      ensures Accounts(soit, w) && state.egressHost == old(state.egressHost)
      ensures Followed(ResourcePlan(cfg, old(soit.world.next)), old(soit.Now()), soit.Now())
      ensures ok <==> Usable(cfg) && FineUpTo(old(soit.script), |ResourcePlan(cfg, old(soit.world.next))|)
      ensures state.models <= ModelPlan(cfg, old(soit.world.next) + 2)
      ensures ok ==> state.models == ModelPlan(cfg, old(soit.world.next) + 2) && file == Some(state)
      ensures ok ==> state.secret.Some? && state.provider.Some? && state.key.Some? && state.budget.Some? && (state.virtual.Some? <==> cfg.failing)
    {
      hide With, Recorded, Followed, FineUpTo, ModelPlan, ModelCalls, AccessPlan, ProviderPlan, ResourcePlan;
      ghost var start, secret := soit.Now(), soit.world.next;
      ghost var n := |ModelPlan(cfg, secret + 2)|;
      ghost var first, models, access := ProviderPlan(cfg, secret), ModelCalls(secret + 1, n), AccessPlan(cfg, secret + 2, secret + 2 + n);
      ResourcePlanIs(cfg, secret);
      ok := AddProvider(soit, cfg, w);
      ghost var middle := soit.Now();
      if !ok {
        if cfg.credential {
          FollowedToFault(first, models + access, start, middle);
        }
        return;
      }
      ok := AddModels(soit, cfg, w);
      FollowedThen(first, models, start, middle, soit.Now());
      ghost var late := soit.Now();
      if !ok {
        if cfg.primary.Missing? {
          NoAccess(cfg, secret + 2, secret + 2 + n);
          assert first + models + [] == first + models;
        } else {
          FollowedToFault(first + models, access, start, late);
        }
        return;
      }
      ok := GrantAccess(soit, cfg, w, secret + 2);
      FollowedThen(first + models, access, start, late, soit.Now());
    }

    // `setup`: the calls of its plan are made one after another until one meets a fault, and it
    // succeeds exactly when none does and the configuration is usable. Whatever call fails, or
    // none, the server holds what it held before plus exactly what the saved state records, no
    // role has two models, and nothing dangles.
    method Setup(soit: Soit, cfg: Config) returns (ok: bool)
      requires state == NOTHING && Numbered(soit.world) && Integrity(soit.world)
      modifies this, soit
      ensures Followed(SetupPlan(cfg, old(soit.world)), old(soit.Now()), soit.Now())
      ensures ok <==> Usable(cfg) && FineUpTo(old(soit.script), |SetupPlan(cfg, old(soit.world))|)
      ensures file == Some(state) && Recorded(state, old(soit.world), soit.world.next)
      ensures soit.world == With(old(soit.world), state, soit.world.next)
      ensures Numbered(soit.world) && Integrity(soit.world)
      ensures forall i, j :: 0 <= i < j < |state.models| ==> Place(state.models[i].0) < Place(state.models[j].0)
      ensures |soit.world.models| == old(|soit.world.models|) + |state.models|
      ensures ok ==> Complete(state, cfg, old(soit.world)) && |state.models| == |Wanted(cfg)|
      ensures ok ==> Connected(state, cfg, old(soit.world), soit.world)
    {
      hide With, Followed, FineUpTo, ModelPlan, SetupPlan, Complete, Wanted, ExtendModels, Connected;
      ok := SetupCalls(soit, cfg);
      if !ok {
        Save();
      }
      RecordedIsSound(old(soit.world), state, soit.world.next);
      if cfg.primary.Missing? {
        NothingForMissing(cfg, old(soit.world.next) + 2);
      } else {
        ModelPlanIs(cfg, old(soit.world.next) + 2);
      }
      WithModels(old(soit.world), state, soit.world.next);
      if ok {
        IsConnected(state, cfg, old(soit.world), soit.world.next);
      }
    }
  }
}
