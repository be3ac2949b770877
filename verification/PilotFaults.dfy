// What becomes of a teardown under faults: which steps happen, what is left dangling, and why.
module PilotFaults {
  import opened Results
  import opened PilotServer
  import opened PilotSaga
  import opened PilotTeardown

  // The world under other egress lists.
  function Relisted(w: World, allow: seq<string>, block: seq<string>): World {
    w.(allowlist := allow, blocklist := block)
  }

  lemma StrippedRelisted(w: World, allow: seq<string>, block: seq<string>, done: seq<Call>)
    ensures Stripped(Relisted(w, allow, block), done) == Relisted(Stripped(w, done), allow, block)
  {
  }

  // -- What the server refuses --

  // Every recorded model's deletion has happened.
  ghost predicate ModelsGone(s: State, done: seq<Call>) {
    forall i :: 0 <= i < |s.models| ==> DeleteModel(IdOf(s.provider), s.models[i].1) in done
  }

  lemma OwnModel(w: World, s: State, next: Id, done: seq<Call>, m: Id)
    requires exists i :: 0 <= i < |s.models| && s.models[i].1 == m
    ensures var after := Stripped(With(w, s, next), done);
      m in after.models && after.models[m] == IdOf(s.provider) <==> DeleteModel(IdOf(s.provider), m) !in done
  {
    ExtendModelsHas(w.models, s.models, IdOf(s.provider), m);
  }

  lemma OwnProvider(w: World, s: State, next: Id, done: seq<Call>, p: Id)
    requires Recorded(s, w, next) && Numbered(w) && Integrity(w) && s.provider == Some(p)
    ensures var after := Stripped(With(w, s, next), done);
      && (p in after.providers <==> DeleteProvider(p) !in done)
      && ((exists m :: m in after.models && after.models[m] == p) <==> !ModelsGone(s, done))
  {
    hide StepsOf, FailoverTargets, ModelOf;
    var after := Stripped(With(w, s, next), done);
    if !ModelsGone(s, done) {
      var i :| 0 <= i < |s.models| && DeleteModel(p, s.models[i].1) !in done;
      OwnModel(w, s, next, done, s.models[i].1);
      assert s.models[i].1 in after.models && after.models[s.models[i].1] == p;
    }
    if m :| m in after.models && after.models[m] == p {
      ExtendModelsHas(w.models, s.models, p, m);
      assert m in w.models ==> w.models[m] in w.providers;
      var i :| 0 <= i < |s.models| && s.models[i].1 == m;
      assert DeleteModel(p, s.models[i].1) !in done;
    }
  }

  lemma OwnOther(w: World, s: State, next: Id, done: seq<Call>, c: Call)
    requires c in StepsOf(s) && !c.DeleteModel? && !c.DeleteProvider?
    ensures Refuses(Stripped(With(w, s, next), done), c) <==> c in done && !c.RevokeKey?
  {
    hide StepsOf, FailoverTargets, ModelOf, ExtendModels;
    StepsAre(s, c);
  }

  // After some of the recorded steps have happened, the server refuses what is gone already, and
  // the provider while one of its models is left; for the reasons modelled, nothing else.
  lemma RefusedExactly(w: World, s: State, next: Id, allow: seq<string>, block: seq<string>, done: seq<Call>, j: nat)
    requires Recorded(s, w, next) && Numbered(w) && Integrity(w) && j < |StepsOf(s)| && forall c :: c in done ==> c in StepsOf(s)
    ensures IsStep(StepsOf(s)[j])
    ensures Refuses(Stripped(Relisted(With(w, s, next), allow, block), done), StepsOf(s)[j]) <==>
      var c := StepsOf(s)[j];
      (c in done && !c.RevokeKey?) || (c.DeleteProvider? && !ModelsGone(s, done))
  {
    hide StepsOf, Stripped, With, FailoverTargets, ModelOf;
    StrippedRelisted(With(w, s, next), allow, block, done);
    var c := StepsOf(s)[j];
    StepsAre(s, c);
    match c {
      case DeleteModel(p, m) => OwnModel(w, s, next, done, m);
      case DeleteProvider(p) => OwnProvider(w, s, next, done, p);
      case _ => OwnOther(w, s, next, done, c);
    }
  }

  // -- Which steps happen --

  lemma FaultsShift(script: seq<Fault>, i: nat)
    ensures Head(script) == FaultAt(script, 0) && FaultAt(Tail(script), i) == FaultAt(script, i + 1)
  {
  }

  lemma {:induction false} RunMore(w: World, script: seq<Fault>, steps: seq<Call>, c: Call)
    ensures var run, more := RunSteps(w, script, steps), RunSteps(w, script, steps + [c]);
      more ==
        if run.broken then run
        else if Happens(run.world, FaultAt(script, |steps|), c) then
          run.(world := Effect(run.world, c), done := run.done + [c], attempted := run.attempted + 1)
        else if FaultAt(script, |steps|).OtherException? then run.(broken := true, attempted := run.attempted + 1)
        else run.(failed := true, attempted := run.attempted + 1)
    decreases |steps|
  {
    hide Effect, Refuses, Head, Tail, FaultAt;
    if steps == [] {
      assert ([] + [c])[1..] == [];
      FaultsShift(script, 0);
    } else {
      assert (steps + [c])[1..] == steps[1..] + [c];
      FaultsShift(script, |steps| - 1);
      RunMore(Effect(w, steps[0]), Tail(script), steps[1..], c);
      RunMore(w, Tail(script), steps[1..], c);
    }
  }

  // A step of a teardown happens exactly when no exception ended the run before, the call itself
  // meets no fault, and its resource is still there, free of models if it is the provider. `gone`
  // are the steps that happened in earlier teardowns.
  ghost predicate StepWorks(s: State, gone: seq<Call>, script: seq<Fault>, j: nat)
    requires j < |StepsOf(s)|
  {
    var c := StepsOf(s)[j];
    && Uninterrupted(script, j) && FaultAt(script, j).Fine?
    && (c in gone ==> c.RevokeKey?)
    && (c.DeleteProvider? ==>
         forall i :: |AccessSteps(s)| <= i < j ==> FaultAt(script, i).Fine? || StepsOf(s)[i] in gone)
  }

  // What a run of the first `k` steps has done.
  ghost predicate RunHas(s: State, world: World, gone: seq<Call>, script: seq<Fault>, k: nat, run: Run)
    requires k <= |StepsOf(s)|
  {
    && (forall j :: 0 <= j < k ==> (StepsOf(s)[j] in run.done <==> StepWorks(s, gone, script, j)))
    && (forall c :: c in run.done ==> c in StepsOf(s)[..k])
    && run.world == Stripped(world, gone + run.done)
    && (run.failed <==> exists j :: 0 <= j < k && Uninterrupted(script, j + 1) && !StepWorks(s, gone, script, j))
    && (run.broken <==> !Uninterrupted(script, k))
  }

  lemma ModelsGoneExactly(s: State, gone: seq<Call>, script: seq<Fault>, j: nat, done: seq<Call>)
    requires j < |StepsOf(s)| && StepsOf(s)[j].DeleteProvider? && Uninterrupted(script, j)
    requires forall i :: 0 <= i < j ==> (StepsOf(s)[i] in done <==> StepWorks(s, gone, script, i))
    ensures ModelsGone(s, gone + done) <==>
      forall i :: |AccessSteps(s)| <= i < j ==> FaultAt(script, i).Fine? || StepsOf(s)[i] in gone
  {
    hide StepsOf, AccessSteps;
    StepsInOrder(s, j);
    var a := |AccessSteps(s)|;
    forall i | 0 <= i < |s.models|
      ensures a + i < j && StepsOf(s)[a + i] == DeleteModel(IdOf(s.provider), s.models[i].1)
      ensures StepsOf(s)[a + i] in gone + done <==> FaultAt(script, a + i).Fine? || StepsOf(s)[a + i] in gone {
      ModelStepAt(s, i);
      assert Uninterrupted(script, a + i);
    }
    forall i | a <= i < j && ModelsGone(s, gone + done) ensures FaultAt(script, i).Fine? || StepsOf(s)[i] in gone {
      var m := i - a;
      assert DeleteModel(IdOf(s.provider), s.models[m].1) in gone + done;
      assert i == a + m && StepsOf(s)[a + m] in gone + done;
    }
  }

  // Whether the next call happens, when no exception has ended the run.
  lemma NextStep(w: World, s: State, next: Id, allow: seq<string>, block: seq<string>, gone: seq<Call>, script: seq<Fault>, j: nat, run: Run)
    requires Recorded(s, w, next) && Numbered(w) && Integrity(w) && j < |StepsOf(s)| && forall c :: c in gone ==> c in StepsOf(s)
    requires RunHas(s, Relisted(With(w, s, next), allow, block), gone, script, j, run) && !run.broken
    ensures Happens(run.world, FaultAt(script, j), StepsOf(s)[j]) <==> StepWorks(s, gone, script, j)
    ensures IsStep(StepsOf(s)[j]) && StepsOf(s)[j] !in run.done
  {
    hide StepsOf, AccessSteps, With, Recorded, Numbered, Integrity, Refuses, Stripped, ModelsGone, Uninterrupted;
    var c, done := StepsOf(s)[j], gone + run.done;
    if c in run.done {
      var i :| 0 <= i < j && StepsOf(s)[i] == c;
      StepsAreDistinct(s, w, next, i, j);
    }
    RefusedExactly(w, s, next, allow, block, done, j);
    if c.DeleteProvider? {
      ModelsGoneExactly(s, gone, script, j, run.done);
    }
  }

  lemma MoreFaults(script: seq<Fault>, n: nat)
    ensures Uninterrupted(script, n + 1) <==> Uninterrupted(script, n) && !FaultAt(script, n).OtherException?
  {
  }

  lemma WorksOnlyUninterrupted(s: State, gone: seq<Call>, script: seq<Fault>, j: nat)
    requires j < |StepsOf(s)|
    ensures StepWorks(s, gone, script, j) ==> Uninterrupted(script, j + 1)
  {
  }

  lemma OneMoreStep(w: World, s: State, next: Id, allow: seq<string>, block: seq<string>, gone: seq<Call>, script: seq<Fault>, j: nat, run: Run)
    requires Recorded(s, w, next) && Numbered(w) && Integrity(w) && j < |StepsOf(s)| && forall c :: c in gone ==> c in StepsOf(s)
    requires RunHas(s, Relisted(With(w, s, next), allow, block), gone, script, j, run)
    ensures var world, c := Relisted(With(w, s, next), allow, block), StepsOf(s)[j];
      RunHas(s, world, gone, script, j + 1,
        if run.broken then run
        else if Happens(run.world, FaultAt(script, j), c) then
          run.(world := Effect(run.world, c), done := run.done + [c], attempted := run.attempted + 1)
        else if FaultAt(script, j).OtherException? then run.(broken := true, attempted := run.attempted + 1)
        else run.(failed := true, attempted := run.attempted + 1))
  {
    hide StepsOf, With, Recorded, Numbered, Integrity, Effect, Refuses, Stripped, StepWorks, Uninterrupted;
    var world, c := Relisted(With(w, s, next), allow, block), StepsOf(s)[j];
    MoreFaults(script, j);
    WorksOnlyUninterrupted(s, gone, script, j);
    forall i | 0 <= i < j ensures StepsOf(s)[i] != c {
      StepsAreDistinct(s, w, next, i, j);
    }
    assert StepsOf(s)[..j + 1] == StepsOf(s)[..j] + [c];
    if !run.broken {
      NextStep(w, s, next, allow, block, gone, script, j, run);
      if Happens(run.world, FaultAt(script, j), c) {
        StripOne(run.world, c);
        StripMore(world, gone + run.done, [c]);
        assert gone + run.done + [c] == gone + (run.done + [c]);
      }
    }
  }

  lemma NothingRun(s: State, world: World, gone: seq<Call>, script: seq<Fault>)
    ensures RunHas(s, world, gone, script, 0, RunSteps(Stripped(world, gone), script, []))
  {
    hide StepsOf, Stripped;
    assert gone + [] == gone;
  }

  lemma {:induction false} RunExactly(w: World, s: State, next: Id, allow: seq<string>, block: seq<string>, gone: seq<Call>, script: seq<Fault>, k: nat)
    requires Recorded(s, w, next) && Numbered(w) && Integrity(w) && k <= |StepsOf(s)| && forall c :: c in gone ==> c in StepsOf(s)
    ensures var world := Relisted(With(w, s, next), allow, block);
      RunHas(s, world, gone, script, k, RunSteps(Stripped(world, gone), script, StepsOf(s)[..k]))
  {
    hide Stripped, StepsOf, With, Effect, Refuses, Recorded, Numbered, Integrity, RunHas, RunSteps;
    var world := Relisted(With(w, s, next), allow, block);
    if k == 0 {
      assert StepsOf(s)[..0] == [];
      NothingRun(s, world, gone, script);
    } else {
      var c, before := StepsOf(s)[k - 1], RunSteps(Stripped(world, gone), script, StepsOf(s)[..k - 1]);
      RunExactly(w, s, next, allow, block, gone, script, k - 1);
      assert StepsOf(s)[..k] == StepsOf(s)[..k - 1] + [c];
      RunMore(Stripped(world, gone), script, StepsOf(s)[..k - 1], c);
      OneMoreStep(w, s, next, allow, block, gone, script, k - 1, before);
    }
  }

  // -- Dangling references --

  lemma StepKeepsModelsAndBudgets(w: World, call: Call)
    requires IsStep(call) && !Refuses(w, call) && ModelsHaveProviders(w) && BudgetsHaveKeys(w)
    ensures ModelsHaveProviders(Effect(w, call)) && BudgetsHaveKeys(Effect(w, call))
  {
  }

  // A step that happens keeps models with their providers and budgets with their keys' rows.
  lemma {:induction false} RunKeepsModelsAndBudgets(w: World, script: seq<Fault>, steps: seq<Call>)
    requires (forall c :: c in steps ==> IsStep(c)) && ModelsHaveProviders(w) && BudgetsHaveKeys(w)
    ensures ModelsHaveProviders(RunSteps(w, script, steps).world) && BudgetsHaveKeys(RunSteps(w, script, steps).world)
    decreases |steps|
  {
    if steps == [] {
    } else {
      if Happens(w, Head(script), steps[0]) {
        StepKeepsModelsAndBudgets(w, steps[0]);
        RunKeepsModelsAndBudgets(Effect(w, steps[0]), Tail(script), steps[1..]);
      } else {
        RunKeepsModelsAndBudgets(w, Tail(script), steps[1..]);
      }
    }
  }

  // The recorded secret was deleted while the recorded provider, which uses it, stayed.
  ghost predicate OrphanedProvider(s: State, done: seq<Call>) {
    s.secret.Some? && s.provider.Some? && DeleteSecret(s.secret.value) in done && DeleteProvider(s.provider.value) !in done
  }

  // The recorded virtual model stayed while one of its targets was deleted.
  ghost predicate OrphanedVirtual(s: State, done: seq<Call>) {
    && s.virtual.Some? && DeleteVirtual(s.virtual.value) !in done
    && exists m :: m in FailoverTargets(s) && DeleteModel(IdOf(s.provider), m) in done
  }

  lemma StrippedProviders(w: World, s: State, next: Id, done: seq<Call>)
    requires Recorded(s, w, next) && Numbered(w) && Integrity(w) && forall c :: c in done ==> c in StepsOf(s)
    ensures ProvidersHaveSecrets(Stripped(With(w, s, next), done)) <==> !OrphanedProvider(s, done)
  {
    var world := With(w, s, next);
    var after := Stripped(world, done);
    forall p | p in world.providers
      ensures p in after.providers <==> !(s.provider == Some(p) && DeleteProvider(p) in done)
      ensures world.providers[p] in after.secrets <==> !(s.secret == Some(world.providers[p]) && DeleteSecret(world.providers[p]) in done)
      ensures s.secret == Some(world.providers[p]) <==> s.provider == Some(p) {
      StepsAre(s, DeleteProvider(p));
      StepsAre(s, DeleteSecret(world.providers[p]));
      assert p in w.providers ==> w.providers[p] in w.secrets;
    }
    if OrphanedProvider(s, done) {
      assert s.provider.value in after.providers && after.providers[s.provider.value] !in after.secrets;
    }
  }

  lemma ModelStays(w: World, s: State, next: Id, done: seq<Call>, m: Id)
    requires Recorded(s, w, next) && Numbered(w) && Integrity(w) && forall c :: c in done ==> c in StepsOf(s)
    requires m in With(w, s, next).models
    ensures m in Stripped(With(w, s, next), done).models <==> DeleteModel(IdOf(s.provider), m) !in done
    ensures m in w.models ==> m in Stripped(With(w, s, next), done).models
  {
    var p := With(w, s, next).models[m];
    ExtendModelsHas(w.models, s.models, IdOf(s.provider), m);
    StepsAre(s, DeleteModel(p, m));
    StepsAre(s, DeleteModel(IdOf(s.provider), m));
  }

  lemma TargetStays(w: World, s: State, next: Id, done: seq<Call>, m: Id)
    requires Recorded(s, w, next) && Numbered(w) && Integrity(w) && forall c :: c in done ==> c in StepsOf(s)
    requires s.virtual.Some? && m in FailoverTargets(s)
    ensures m in Stripped(With(w, s, next), done).models <==> DeleteModel(IdOf(s.provider), m) !in done
  {
    hide Stripped, With, StepsOf, FailoverTargets, Numbered, Integrity;
    TargetsAreModels(w, s, next);
    ModelStays(w, s, next, done, m);
  }

  // What a run leaves of a virtual model: another's keeps all its targets.
  lemma VirtualStays(w: World, s: State, next: Id, done: seq<Call>, v: Id)
    requires Recorded(s, w, next) && Numbered(w) && Integrity(w) && forall c :: c in done ==> c in StepsOf(s)
    ensures var after := Stripped(With(w, s, next), done);
      && (s.virtual == Some(v) ==> (v in after.virtuals <==> DeleteVirtual(v) !in done))
      && (v in after.virtuals && s.virtual == Some(v) ==> after.virtuals[v] == FailoverTargets(s))
      && (v in after.virtuals && s.virtual != Some(v) ==> forall m :: m in after.virtuals[v] ==> m in after.models)
  {
    hide StepsOf, FailoverTargets;
    if v in w.virtuals && s.virtual != Some(v) {
      forall m | m in w.virtuals[v] ensures m in Stripped(With(w, s, next), done).models {
        ExtendModelsHas(w.models, s.models, IdOf(s.provider), m);
        ModelStays(w, s, next, done, m);
      }
    }
  }

  lemma StrippedVirtuals(w: World, s: State, next: Id, done: seq<Call>)
    requires Recorded(s, w, next) && Numbered(w) && Integrity(w) && forall c :: c in done ==> c in StepsOf(s)
    ensures VirtualsHaveTargets(Stripped(With(w, s, next), done)) <==> !OrphanedVirtual(s, done)
  {
    hide Stripped, With, Recorded, Numbered, Integrity, StepsOf, FailoverTargets;
    var after := Stripped(With(w, s, next), done);
    forall v | v in after.virtuals
      ensures s.virtual != Some(v) ==> forall m :: m in after.virtuals[v] ==> m in after.models
      ensures s.virtual == Some(v) ==> after.virtuals[v] == FailoverTargets(s) && DeleteVirtual(v) !in done {
      VirtualStays(w, s, next, done, v);
    }
    if s.virtual.Some? {
      VirtualStays(w, s, next, done, s.virtual.value);
      forall m | m in FailoverTargets(s) ensures m in after.models <==> DeleteModel(IdOf(s.provider), m) !in done {
        TargetStays(w, s, next, done, m);
      }
      if OrphanedVirtual(s, done) {
        var m :| m in FailoverTargets(s) && DeleteModel(IdOf(s.provider), m) in done;
        assert s.virtual.value in after.virtuals && m in after.virtuals[s.virtual.value] && m !in after.models;
      }
    }
  }

  // After any part of a teardown, with any failures, only two references can dangle: a provider
  // left without its secret, and a virtual model left without a target.
  lemma DanglingExactly(w: World, s: State, next: Id, allow: seq<string>, block: seq<string>, script: seq<Fault>, k: nat)
    requires Recorded(s, w, next) && Numbered(w) && Integrity(w) && k <= |StepsOf(s)|
    ensures var run := RunSteps(Relisted(With(w, s, next), allow, block), script, StepsOf(s)[..k]);
      && ModelsHaveProviders(run.world) && BudgetsHaveKeys(run.world)
      && (ProvidersHaveSecrets(run.world) <==> !OrphanedProvider(s, run.done))
      && (VirtualsHaveTargets(run.world) <==> !OrphanedVirtual(s, run.done))
  {
    hide Stripped, Effect, Refuses, Recorded, With;
    var world, steps := Relisted(With(w, s, next), allow, block), StepsOf(s)[..k];
    RecordedIsSound(w, s, next);
    forall c | c in steps ensures IsStep(c) && c in StepsOf(s) {
      StepsAre(s, c);
    }
    var run := RunSteps(world, script, steps);
    RunKeepsModelsAndBudgets(world, script, steps);
    RunStrips(world, script, steps);
    StrippedProviders(w, s, next, run.done);
    StrippedVirtuals(w, s, next, run.done);
    StrippedRelisted(With(w, s, next), allow, block, run.done);
  }

  // The faults that cost the provider its secret: the whole teardown runs, the last call, which
  // deletes the secret, succeeds, and some model's deletion or the provider's own was refused.
  ghost predicate LosesSecret(s: State, script: seq<Fault>, k: nat) {
    var n := |StepsOf(s)|;
    && s.provider.Some? && k == n && Uninterrupted(script, n) && FaultAt(script, n - 1).Fine?
    && exists i :: |AccessSteps(s)| <= i < n - 1 && FaultAt(script, i).PilotError?
  }

  // The faults that cost the virtual model a target: its own deletion was refused, and a target's
  // was reached and met no fault.
  ghost predicate LosesTarget(s: State, script: seq<Fault>, k: nat) {
    var a := |AccessSteps(s)|;
    && s.virtual.Some? && FaultAt(script, a - 1).PilotError?
    && exists i :: 0 <= i < |s.models| && a + i < k && s.models[i].1 in FailoverTargets(s)
         && Uninterrupted(script, a + i) && FaultAt(script, a + i).Fine?
  }

  lemma LastSteps(s: State)
    requires s.provider.Some? && s.secret.Some?
    ensures var n := |StepsOf(s)|;
      && n >= |AccessSteps(s)| + 2 && StepsOf(s)[n - 1] == DeleteSecret(s.secret.value) && StepsOf(s)[n - 2] == DeleteProvider(s.provider.value)
  {
  }

  lemma VirtualStep(s: State)
    requires s.virtual.Some?
    ensures 0 < |AccessSteps(s)| <= |StepsOf(s)| && StepsOf(s)[|AccessSteps(s)| - 1] == DeleteVirtual(s.virtual.value)
  {
  }

  lemma ProviderPrecedes(s: State, w: World, next: Id)
    requires Recorded(s, w, next)
    ensures s.provider.Some? ==> s.secret.Some?
  {
  }

  // A step is not among the earlier ones.
  lemma StepsOnce(s: State, w: World, next: Id, j: nat, k: nat)
    requires Recorded(s, w, next) && k <= j < |StepsOf(s)|
    ensures StepsOf(s)[j] !in StepsOf(s)[..k]
  {
    hide StepsOf, Recorded;
    forall i | 0 <= i < k ensures StepsOf(s)[i] != StepsOf(s)[j] {
      StepsAreDistinct(s, w, next, i, j);
    }
  }

  lemma OrphanedProviderExactly(s: State, w: World, next: Id, world: World, script: seq<Fault>, k: nat, run: Run)
    requires Recorded(s, w, next) && k <= |StepsOf(s)| && RunHas(s, world, [], script, k, run)
    ensures OrphanedProvider(s, run.done) <==> LosesSecret(s, script, k)
  {
    hide Stripped, With, StepsOf, AccessSteps;
    ProviderPrecedes(s, w, next);
    if s.provider.Some? {
      LastSteps(s);
      var n := |StepsOf(s)|;
      var secret, provider := StepsOf(s)[n - 1], StepsOf(s)[n - 2];
      if k < n {
        StepsOnce(s, w, next, n - 1, k);
      }
      if k == n && Uninterrupted(script, n) {
        assert StepWorks(s, [], script, n - 1) <==> FaultAt(script, n - 1).Fine?;
        assert provider in run.done <==> StepWorks(s, [], script, n - 2);
        assert forall i :: 0 <= i < n ==> !FaultAt(script, i).OtherException?;
      }
    }
  }

  lemma ModelStepWorks(s: State, script: seq<Fault>, i: nat)
    requires i < |s.models|
    ensures var j := |AccessSteps(s)| + i;
      && j < |StepsOf(s)| && StepsOf(s)[j] == DeleteModel(IdOf(s.provider), s.models[i].1)
      && (StepWorks(s, [], script, j) <==> Uninterrupted(script, j) && FaultAt(script, j).Fine?)
  {
    hide StepsOf, AccessSteps, Uninterrupted;
    ModelStepAt(s, i);
  }

  lemma FewerFaults(script: seq<Fault>, i: nat, n: nat)
    requires i < n && Uninterrupted(script, n)
    ensures Uninterrupted(script, i) && !FaultAt(script, i).OtherException?
  {
  }

  // When a later step was reached, the virtual model's own step was answered, one way or the other.
  lemma VirtualStepWorks(s: State, script: seq<Fault>, j: nat)
    requires s.virtual.Some? && j >= |AccessSteps(s)|
    ensures var v := |AccessSteps(s)| - 1;
      && 0 <= v < |StepsOf(s)| && StepsOf(s)[v] == DeleteVirtual(s.virtual.value)
      && (Uninterrupted(script, j) ==> (StepWorks(s, [], script, v) <==> !FaultAt(script, v).PilotError?))
  {
    hide StepsOf, AccessSteps, Uninterrupted;
    VirtualStep(s);
    if Uninterrupted(script, j) {
      FewerFaults(script, |AccessSteps(s)| - 1, j);
    }
  }

  lemma OrphanedVirtualExactly(s: State, world: World, script: seq<Fault>, k: nat, run: Run)
    requires k <= |StepsOf(s)| && RunHas(s, world, [], script, k, run)
    ensures OrphanedVirtual(s, run.done) <==> LosesTarget(s, script, k)
  {
    hide Stripped, With, StepsOf, AccessSteps, FailoverTargets, Uninterrupted, StepWorks;
    if s.virtual.Some? {
      var a := |AccessSteps(s)|;
      VirtualStep(s);
      forall i | 0 <= i < |s.models|
        ensures a + i < |StepsOf(s)| && StepsOf(s)[a + i] == DeleteModel(IdOf(s.provider), s.models[i].1)
        ensures a + i < k && StepsOf(s)[a + i] in run.done <==> a + i < k && Uninterrupted(script, a + i) && FaultAt(script, a + i).Fine?
        ensures a + i < k && Uninterrupted(script, a + i) ==>
          (StepsOf(s)[a - 1] !in run.done <==> FaultAt(script, a - 1).PilotError?) {
        ModelStepWorks(s, script, i);
        VirtualStepWorks(s, script, a + i);
      }
      forall m | DeleteModel(IdOf(s.provider), m) in run.done
        ensures exists i :: 0 <= i < |s.models| && a + i < k && s.models[i].1 == m && StepsOf(s)[a + i] in run.done {
        var j :| 0 <= j < k && StepsOf(s)[j] == DeleteModel(IdOf(s.provider), m);
        StepsInOrder(s, j);
        ModelStepAt(s, j - a);
        assert a + (j - a) == j;
      }
    }
  }

  // After any part of a teardown, a provider lacks its secret exactly under those faults, and a
  // virtual model a target exactly under those; models and budgets never dangle.
  lemma DanglingFaults(w: World, s: State, next: Id, allow: seq<string>, block: seq<string>, script: seq<Fault>, k: nat)
    requires Recorded(s, w, next) && Numbered(w) && Integrity(w) && k <= |StepsOf(s)|
    ensures var run := RunSteps(Relisted(With(w, s, next), allow, block), script, StepsOf(s)[..k]);
      && ModelsHaveProviders(run.world) && BudgetsHaveKeys(run.world)
      && (ProvidersHaveSecrets(run.world) <==> !LosesSecret(s, script, k))
      && (VirtualsHaveTargets(run.world) <==> !LosesTarget(s, script, k))
  {
    hide Stripped, With, Effect, Refuses, Recorded, Numbered, Integrity, StepsOf, StepWorks, LosesSecret, LosesTarget;
    hide OrphanedProvider, OrphanedVirtual;
    var world := Relisted(With(w, s, next), allow, block);
    StrippedNothing(world);
    RunExactly(w, s, next, allow, block, [], script, k);
    DanglingExactly(w, s, next, allow, block, script, k);
    var run := RunSteps(world, script, StepsOf(s)[..k]);
    ProviderPrecedes(s, w, next);
    OrphanedProviderExactly(s, w, next, world, script, k, run);
    OrphanedVirtualExactly(s, world, script, k, run);
  }

  // -- Such faults --

  const EMPTY: World := World(0, {}, map[], map[], map[], map[], map[], [], [])

  // One refused answer to the provider's deletion is enough, since the secret is deleted all the
  // same.
  lemma RefusedDeletionOrphansProvider()
    ensures var s := NOTHING.(secret := Some(0), provider := Some(1));
      var run := RunSteps(With(EMPTY, s, 2), [PilotError], StepsOf(s));
      Integrity(With(EMPTY, s, 2)) && run.failed && !run.broken && !ProvidersHaveSecrets(run.world)
  {
    var s := NOTHING.(secret := Some(0), provider := Some(1));
    assert StepsOf(s) == [DeleteProvider(1), DeleteSecret(0)];
    assert [DeleteProvider(1), DeleteSecret(0)][1..] == [DeleteSecret(0)];
    var run := RunSteps(With(EMPTY, s, 2), [PilotError], StepsOf(s));
    assert 1 in run.world.providers && run.world.providers[1] == 0 && 0 !in run.world.secrets;
  }

  const ONE_MODEL: State := NOTHING.(secret := Some(0), provider := Some(1), models := [(Primary, 2)])
  const FAILOVER: State := NOTHING.(secret := Some(0), provider := Some(1), models := [(Primary, 2), (Failing, 3)], virtual := Some(4))

  lemma OneModelSteps()
    ensures StepsOf(ONE_MODEL) == [DeleteModel(1, 2), DeleteProvider(1), DeleteSecret(0)] && |AccessSteps(ONE_MODEL)| == 0
  {
    assert ModelSteps(ONE_MODEL.models, 1) == [DeleteModel(1, 2)];
  }

  lemma FailoverSteps()
    ensures |AccessSteps(FAILOVER)| == 1 && |StepsOf(FAILOVER)| == 5 && 2 in FailoverTargets(FAILOVER)
  {
    assert |ModelSteps(FAILOVER.models, 1)| == 2;
    assert ModelOf(FAILOVER.models[1..], Failing) == Some(3);
    assert FailoverTargets(FAILOVER)[1] == 2;
  }

  lemma TheyAreRecorded()
    ensures Recorded(ONE_MODEL, EMPTY, 3) && Recorded(FAILOVER, EMPTY, 5)
  {
    assert ModelOf(FAILOVER.models[1..], Failing) == Some(3);
  }

  lemma EmptyIsSound()
    ensures Numbered(EMPTY) && Integrity(EMPTY)
  {
  }

  lemma NoLists(s: State, next: Id)
    ensures Relisted(With(EMPTY, s, next), With(EMPTY, s, next).allowlist, []) == With(EMPTY, s, next)
  {
  }

  lemma HasProvider()
    ensures ONE_MODEL.provider.Some? && FAILOVER.virtual.Some? && |FAILOVER.models| == 2 && FAILOVER.models[0].1 == 2
  {
  }

  // So is one refused answer to a model's deletion: the call for the provider meets no fault, but
  // the server refuses it because of that model.
  lemma RefusedModelOrphansProvider()
    ensures var world := With(EMPTY, ONE_MODEL, 3);
      && StepsOf(ONE_MODEL) == [DeleteModel(1, 2), DeleteProvider(1), DeleteSecret(0)]
      && Integrity(world) && !ProvidersHaveSecrets(RunSteps(world, [PilotError], StepsOf(ONE_MODEL)).world)
  {
    hide ONE_MODEL, EMPTY, With, StepsOf, AccessSteps, Recorded, Numbered, Integrity, RunSteps, ProvidersHaveSecrets;
    var s, script, world := ONE_MODEL, [PilotError], With(EMPTY, ONE_MODEL, 3);
    OneModelSteps();
    TheyAreRecorded();
    EmptyIsSound();
    RecordedIsSound(EMPTY, s, 3);
    NoLists(s, 3);
    DanglingFaults(EMPTY, s, 3, world.allowlist, [], script, 3);
    assert StepsOf(s)[..3] == StepsOf(s);
    assert FaultAt(script, 0).PilotError?;
    HasProvider();
  }

  // One refused answer to the virtual model's deletion leaves it without a target.
  lemma RefusedDeletionOrphansVirtual()
    ensures var world := With(EMPTY, FAILOVER, 5);
      Integrity(world) && !VirtualsHaveTargets(RunSteps(world, [PilotError], StepsOf(FAILOVER)).world)
  {
    hide FAILOVER, EMPTY, With, StepsOf, AccessSteps, Recorded, Numbered, Integrity, RunSteps, VirtualsHaveTargets, FailoverTargets;
    var s, script, world := FAILOVER, [PilotError], With(EMPTY, FAILOVER, 5);
    FailoverSteps();
    TheyAreRecorded();
    EmptyIsSound();
    RecordedIsSound(EMPTY, s, 5);
    NoLists(s, 5);
    DanglingFaults(EMPTY, s, 5, world.allowlist, [], script, 5);
    assert StepsOf(s)[..5] == StepsOf(s);
    HasProvider();
    assert FaultAt(script, 0).PilotError? && FaultAt(script, 1 + 0).Fine? && Uninterrupted(script, 1 + 0);
  }
}
