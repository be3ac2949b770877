// Tearing a pilot down from its saved state: the loop over the recorded steps, when it is cut
// short, and what every run of steps removes.
module PilotTeardown {
  import opened Results
  import opened PilotServer
  import opened PilotSaga

  function StepFor(id: Option<Id>, call: Id -> Call): seq<Call> {
    if id.Some? then [call(id.value)] else []
  }

  function ModelSteps(models: seq<(Role, Id)>, provider: Id): (r: seq<Call>)
    ensures |r| == |models|
  {
    seq(|models|, i requires 0 <= i < |models| => DeleteModel(provider, models[i].1))
  }

  function AccessSteps(s: State): seq<Call> {
    StepFor(s.key, (k: Id) => RevokeKey(k)) + StepFor(s.budget, (b: Id) => DeleteBudget(b)) + StepFor(s.virtual, (v: Id) => DeleteVirtual(v))
  }

  function ProviderSteps(s: State): seq<Call> {
    StepFor(s.provider, (p: Id) => DeleteProvider(p)) + StepFor(s.secret, (x: Id) => DeleteSecret(x))
  }

  // The steps of `teardown`, dependents first.
  function StepsOf(s: State): seq<Call> {
    AccessSteps(s) + ModelSteps(s.models, IdOf(s.provider)) + ProviderSteps(s)
  }

  predicate IsStep(call: Call) {
    call.RevokeKey? || call.DeleteBudget? || call.DeleteVirtual? || call.DeleteModel? || call.DeleteProvider? || call.DeleteSecret?
  }

  // -- A run of steps --

  // The world reached, whether a step failed with `PilotError`, whether another exception ended
  // the run, the steps that happened, and how many were attempted.
  datatype Run = Run(world: World, failed: bool, broken: bool, done: seq<Call>, attempted: nat)

  function RunSteps(w: World, script: seq<Fault>, steps: seq<Call>): Run
    decreases |steps|
  {
    if steps == [] then Run(w, false, false, [], 0)
    else if Happens(w, Head(script), steps[0]) then
      var r := RunSteps(Effect(w, steps[0]), Tail(script), steps[1..]);
      r.(done := [steps[0]] + r.done, attempted := r.attempted + 1)
    else if Head(script).OtherException? then Run(w, false, true, [], 1)
    else
      var r := RunSteps(w, Tail(script), steps[1..]);
      r.(failed := true, attempted := r.attempted + 1)
  }

  function Except(list: seq<string>, host: string): seq<string> {
    if list == [] then []
    else if list[0] == host then Except(list[1..], host)
    else [list[0]] + Except(list[1..], host)
  }

  function Disallowed(w: World, host: Option<string>): World {
    if host.Some? then w.(allowlist := Except(w.allowlist, host.value)) else w
  }

  lemma TailFaults(script: seq<Fault>, n: nat)
    requires n > 0
    ensures Uninterrupted(script, n) <==> !Head(script).OtherException? && Uninterrupted(Tail(script), n - 1)
    ensures FineUpTo(script, n) <==> Head(script).Fine? && FineUpTo(Tail(script), n - 1)
  {
    assert Head(script) == FaultAt(script, 0);
    assert forall i :: 0 <= i < n - 1 ==> FaultAt(Tail(script), i) == FaultAt(script, i + 1);
    assert forall i :: 1 <= i < n ==> FaultAt(script, i) == FaultAt(Tail(script), i - 1);
  }

  lemma NothingInterrupted(script: seq<Fault>)
    ensures Uninterrupted(script, 0)
  {
  }

  // How far a run gets depends on the faults alone: a step is attempted exactly when no exception
  // other than `PilotError` met an earlier one, and such an exception is what breaks a run.
  lemma {:induction false} Attempts(w: World, script: seq<Fault>, steps: seq<Call>)
    ensures var run := RunSteps(w, script, steps);
      && run.attempted <= |steps| && (run.broken <==> !Uninterrupted(script, |steps|))
      && forall j :: 0 <= j < |steps| ==> (j < run.attempted <==> Uninterrupted(script, j))
    decreases |steps|
  {
    hide Effect, Refuses, Uninterrupted;
    NothingInterrupted(script);
    if steps == [] {
    } else {
      var happens := Happens(w, Head(script), steps[0]);
      var run := RunSteps(w, script, steps);
      TailFaults(script, |steps|);
      if !happens && Head(script).OtherException? {
        forall j | 1 <= j < |steps| ensures !Uninterrupted(script, j) {
          TailFaults(script, j);
        }
      } else {
        var w' := if happens then Effect(w, steps[0]) else w;
        Attempts(w', Tail(script), steps[1..]);
        forall j | 1 <= j < |steps| ensures j < run.attempted <==> Uninterrupted(script, j) {
          TailFaults(script, j);
        }
      }
    }
  }

  // Every step is attempted exactly when none but possibly the last meets such an exception.
  lemma AllAttemptedExactly(w: World, script: seq<Fault>, steps: seq<Call>)
    ensures RunSteps(w, script, steps).attempted == |steps| <==> steps == [] || Uninterrupted(script, |steps| - 1)
  {
    Attempts(w, script, steps);
  }

  // One lost connection is enough for the other resources never to be attempted.
  lemma LostConnectionLeavesTheRest()
    ensures var w := World(0, {}, map[], map[], map[], map[], map[], [], []);
      var s := NOTHING.(secret := Some(0), provider := Some(1));
      var run := RunSteps(With(w, s, 2), [OtherException], StepsOf(s));
      |StepsOf(s)| == 2 && run.attempted == 1 && run.broken && run.world == With(w, s, 2)
  {
    var w := World(0, {}, map[], map[], map[], map[], map[], [], []);
    var s := NOTHING.(secret := Some(0), provider := Some(1));
    assert StepsOf(s) == [DeleteProvider(1), DeleteSecret(0)];
  }

  lemma LaterTail(script: seq<Fault>, i: nat)
    ensures Later(script, 0) == script && Tail(Later(script, i)) == Later(script, i + 1)
  {
  }

  // The loop over the steps: each is attempted once and in order, whatever answers come back,
  // unless an exception other than `PilotError` ends the run.
  method AttemptAll(soit: Soit, steps: seq<Call>) returns (failed: bool, broken: bool)
    modifies soit
    ensures var run := RunSteps(old(soit.world), old(soit.script), steps);
      && soit.world == run.world && broken == run.broken && (!broken ==> failed == run.failed)
      && run.attempted <= |steps| && soit.log == old(soit.log) + steps[..run.attempted]
      && soit.script == Later(old(soit.script), run.attempted)
    ensures broken <==> !Uninterrupted(old(soit.script), |steps|)
    ensures !broken ==> soit.script == Later(old(soit.script), |steps|)
  {
    hide Effect, Refuses, Uninterrupted, Later, Tail, Head;
    LaterTail(soit.script, 0);
    failed, broken := false, false;
    ghost var total := RunSteps(soit.world, soit.script, steps);
    Attempts(soit.world, soit.script, steps);
    for i := 0 to |steps|
      invariant var rest := RunSteps(soit.world, soit.script, steps[i..]);
        && total.world == rest.world && total.broken == rest.broken
        && total.failed == (failed || rest.failed) && total.attempted == i + rest.attempted
      invariant soit.log == old(soit.log) + steps[..i]
      invariant soit.script == Later(old(soit.script), i)
    {
      LaterTail(old(soit.script), i);
      assert steps[i..][0] == steps[i] && steps[i..][1..] == steps[i + 1..];
      var r := soit.Api(steps[i]);
      assert steps[..i + 1] == steps[..i] + [steps[i]];
      if r.Raised? {
        if r.fault.OtherException? {
          broken := true;
          return;
        }
        failed := true;
      }
    }
    assert steps[..|steps|] == steps;
  }

  // The two calls that take the host off the list, if there is one, meet no failure.
  predicate EgressHappens(s: State, script: seq<Fault>) {
    s.egressHost.Some? ==> Head(script).Fine? && Head(Tail(script)).Fine?
  }

  // Taking the recorded host off the list.
  method Unlist(soit: Soit, s: State) returns (ok: bool)
    modifies soit
    ensures ok <==> EgressHappens(s, old(soit.script))
    ensures soit.world == if ok then Disallowed(old(soit.world), s.egressHost) else old(soit.world)
    ensures old(soit.log) <= soit.log && forall c :: c in soit.log[|old(soit.log)|..] ==> !IsStep(c)
  {
    if s.egressHost.Some? {
      var egress := soit.Api(GetEgress);
      if egress.Raised? { return false; }
      var put := soit.Api(PutEgress(Except(soit.world.allowlist, s.egressHost.value), soit.world.blocklist));
      if put.Raised? { return false; }
    }
    return true;
  }

  // `teardown`: a step is attempted exactly when no exception other than `PilotError` met an
  // earlier one, each once and in order; the host is taken off the list exactly when none met any
  // step and the two calls for it succeed; the file is removed exactly when everything succeeded.
  method Teardown(soit: Soit, pilot: Pilot) returns (ok: bool)
    requires pilot.file.Some?
    modifies soit, pilot`file
    ensures var s, script := old(pilot.file.value), old(soit.script);
      var n, run := |StepsOf(s)|, RunSteps(old(soit.world), script, StepsOf(s));
      var unlisted := Uninterrupted(script, n) && EgressHappens(s, Later(script, n));
      && run.attempted <= n && (forall j :: 0 <= j < n ==> (j < run.attempted <==> Uninterrupted(script, j)))
      && old(soit.log) + StepsOf(s)[..run.attempted] <= soit.log
      && (forall c :: c in soit.log[|old(soit.log)| + run.attempted..] ==> !IsStep(c))
      && soit.world == (if unlisted then Disallowed(run.world, s.egressHost) else run.world)
      && (ok <==> unlisted && !run.failed)
    ensures pilot.file == if ok then None else old(pilot.file)
  {
    hide Uninterrupted, StepsOf, RunSteps, EgressHappens, Disallowed;
    var s := pilot.file.value;
    Attempts(soit.world, soit.script, StepsOf(s));
    var failed, broken := AttemptAll(soit, StepsOf(s));
    if broken { return false; }
    var unlisted := Unlist(soit, s);
    if !unlisted || failed { return false; }
    pilot.file := None;
    return true;
  }

  // -- What a run leaves --

  // The world after the given steps have happened: their resources are gone, a revoked key keeps
  // its row, everything else is as it was.
  function Stripped(w: World, done: seq<Call>): World {
    w.(secrets := (set x | x in w.secrets && DeleteSecret(x) !in done),
       providers := (map p | p in w.providers && DeleteProvider(p) !in done :: w.providers[p]),
       models := (map m | m in w.models && DeleteModel(w.models[m], m) !in done :: w.models[m]),
       virtuals := (map v | v in w.virtuals && DeleteVirtual(v) !in done :: w.virtuals[v]),
       keys := (map k | k in w.keys :: w.keys[k] && RevokeKey(k) !in done),
       budgets := (map b | b in w.budgets && DeleteBudget(b) !in done :: w.budgets[b]))
  }

  lemma StrippedNothing(w: World)
    ensures Stripped(w, []) == w
  {
    assert Stripped(w, []).providers == w.providers && Stripped(w, []).models == w.models;
    assert Stripped(w, []).virtuals == w.virtuals && Stripped(w, []).keys == w.keys && Stripped(w, []).budgets == w.budgets;
  }

  // Steps of other kinds leave a kind of resource alone.
  lemma StripOthers(w: World, call: Call)
    ensures !call.DeleteSecret? ==> Stripped(w, [call]).secrets == w.secrets
    ensures !call.DeleteProvider? ==> Stripped(w, [call]).providers == w.providers
    ensures !call.DeleteModel? ==> Stripped(w, [call]).models == w.models
    ensures !call.DeleteVirtual? ==> Stripped(w, [call]).virtuals == w.virtuals
    ensures !call.RevokeKey? ==> Stripped(w, [call]).keys == w.keys
    ensures !call.DeleteBudget? ==> Stripped(w, [call]).budgets == w.budgets
  {
  }

  lemma StripOne(w: World, call: Call)
    requires IsStep(call) && !Refuses(w, call)
    ensures Effect(w, call) == Stripped(w, [call])
  {
    StripOthers(w, call);
    var r := Stripped(w, [call]);
    match call
    case RevokeKey(k) => assert r.keys == w.keys[k := false];
    case DeleteBudget(b) => assert r.budgets == w.budgets - {b};
    case DeleteVirtual(v) => assert r.virtuals == w.virtuals - {v};
    case DeleteModel(p, m) => assert r.models == w.models - {m};
    case DeleteProvider(p) => assert r.providers == w.providers - {p};
    case DeleteSecret(x) => assert r.secrets == w.secrets - {x};
  }

  lemma StripMore(w: World, a: seq<Call>, b: seq<Call>)
    ensures Stripped(Stripped(w, a), b) == Stripped(w, a + b)
  {
    var e, r := Stripped(Stripped(w, a), b), Stripped(w, a + b);
    assert e.secrets == r.secrets && e.providers == r.providers && e.models == r.models;
    assert e.virtuals == r.virtuals && e.keys == r.keys && e.budgets == r.budgets;
  }

  // A run removes exactly the resources of the steps that happened, which are among its steps.
  lemma {:induction false} RunStrips(w: World, script: seq<Fault>, steps: seq<Call>)
    requires forall c :: c in steps ==> IsStep(c)
    ensures RunSteps(w, script, steps).world == Stripped(w, RunSteps(w, script, steps).done)
    ensures forall c :: c in RunSteps(w, script, steps).done ==> c in steps
    decreases |steps|
  {
    hide Effect, Refuses, Stripped;
    StrippedNothing(w);
    if steps == [] {
    } else {
      if Happens(w, Head(script), steps[0]) {
        var rest := RunSteps(Effect(w, steps[0]), Tail(script), steps[1..]);
        RunStrips(Effect(w, steps[0]), Tail(script), steps[1..]);
        StripOne(w, steps[0]);
        StripMore(w, [steps[0]], rest.done);
      } else {
        RunStrips(w, Tail(script), steps[1..]);
      }
    }
  }

  // -- The recorded steps --

  lemma StepsAre(s: State, c: Call)
    ensures c in StepsOf(s) <==>
      match c
      case RevokeKey(k) => s.key == Some(k)
      case DeleteBudget(b) => s.budget == Some(b)
      case DeleteVirtual(v) => s.virtual == Some(v)
      case DeleteModel(p, m) => p == IdOf(s.provider) && exists i :: 0 <= i < |s.models| && s.models[i].1 == m
      case DeleteProvider(p) => s.provider == Some(p)
      case DeleteSecret(x) => s.secret == Some(x)
      case _ => false
  {
    var models := ModelSteps(s.models, IdOf(s.provider));
    assert c in models <==> c.DeleteModel? && c.provider == IdOf(s.provider) && exists i :: 0 <= i < |s.models| && s.models[i].1 == c.model by {
      if c.DeleteModel? && c.provider == IdOf(s.provider) && exists i :: 0 <= i < |s.models| && s.models[i].1 == c.model {
        var i :| 0 <= i < |s.models| && s.models[i].1 == c.model;
        assert models[i] == c;
      }
    }
  }

  // Each recorded resource has one step.
  lemma StepsAreDistinct(s: State, w: World, next: Id, i: nat, j: nat)
    requires Recorded(s, w, next) && i < j < |StepsOf(s)|
    ensures StepsOf(s)[i] != StepsOf(s)[j]
  {
    hide IdOf;
    var models := ModelSteps(s.models, IdOf(s.provider));
    assert forall a, b :: 0 <= a < b < |models| ==> models[a] != models[b];
    assert forall a :: 0 <= a < |models| ==> models[a].DeleteModel?;
  }

  // Where the steps stand: those of the models come after the access steps and before the rest.
  lemma ModelStepAt(s: State, i: nat)
    requires i < |s.models|
    ensures |AccessSteps(s)| + i < |StepsOf(s)| - |ProviderSteps(s)|
    ensures StepsOf(s)[|AccessSteps(s)| + i] == DeleteModel(IdOf(s.provider), s.models[i].1)
  {
  }

  lemma StepsInOrder(s: State, j: nat)
    requires j < |StepsOf(s)|
    ensures StepsOf(s)[j].DeleteModel? <==> |AccessSteps(s)| <= j < |AccessSteps(s)| + |s.models|
    ensures StepsOf(s)[j].DeleteProvider? ==> j == |AccessSteps(s)| + |s.models|
    ensures StepsOf(s)[j].DeleteSecret? ==> j == |StepsOf(s)| - 1
    ensures StepsOf(s)[j].DeleteVirtual? ==> j == |AccessSteps(s)| - 1
    ensures StepsOf(s)[j].RevokeKey? ==> j == 0
    ensures StepsOf(s)[j].DeleteBudget? ==> j == if s.key.Some? then 1 else 0
  {
  }
}
