// Undoing a setup: when a teardown leaves nothing behind, what a second one does, and what becomes
// of the egress allowlist.
module PilotUndo {
  import opened Results
  import opened PilotServer
  import opened PilotSaga
  import opened PilotTeardown
  import opened PilotFaults

  // -- All steps --

  // What is left of a setup: the ids used up and the revoked key's row.
  function Undone(w: World, s: State, next: Id): World {
    w.(next := next, keys := Extend(w.keys, s.key, false))
  }

  lemma StrippedOthers(w: World, s: State, next: Id)
    requires Recorded(s, w, next) && Numbered(w)
    ensures var r := Stripped(With(w, s, next), StepsOf(s));
      && r.next == next && r.blocklist == w.blocklist
      && r.secrets == w.secrets && r.providers == w.providers && r.virtuals == w.virtuals
  {
    hide StepsOf;
    forall x: Id ensures DeleteSecret(x) in StepsOf(s) <==> s.secret == Some(x) { StepsAre(s, DeleteSecret(x)); }
    forall p: Id ensures DeleteProvider(p) in StepsOf(s) <==> s.provider == Some(p) { StepsAre(s, DeleteProvider(p)); }
    forall v: Id ensures DeleteVirtual(v) in StepsOf(s) <==> s.virtual == Some(v) { StepsAre(s, DeleteVirtual(v)); }
    var r := Stripped(With(w, s, next), StepsOf(s));
    assert r.secrets == w.secrets;
    assert r.providers == w.providers;
    assert r.virtuals == w.virtuals;
  }

  lemma StrippedModels(w: World, s: State, next: Id)
    requires Recorded(s, w, next) && Numbered(w) && Integrity(w)
    ensures Stripped(With(w, s, next), StepsOf(s)).models == w.models
  {
    hide StepsOf;
    var world := With(w, s, next);
    forall m: Id
      ensures m in w.models ==> m in world.models && world.models[m] == w.models[m]
      ensures m in world.models ==> (DeleteModel(world.models[m], m) in StepsOf(s) <==> m !in w.models) {
      ExtendModelsHas(w.models, s.models, IdOf(s.provider), m);
      if m in world.models {
        StepsAre(s, DeleteModel(world.models[m], m));
      }
    }
  }

  lemma StrippedKeys(w: World, s: State, next: Id)
    requires Recorded(s, w, next) && Numbered(w)
    ensures Stripped(With(w, s, next), StepsOf(s)).keys == Extend(w.keys, s.key, false)
    ensures Stripped(With(w, s, next), StepsOf(s)).budgets == w.budgets
  {
    hide StepsOf;
    forall k: Id ensures RevokeKey(k) in StepsOf(s) <==> s.key == Some(k) { StepsAre(s, RevokeKey(k)); }
    forall b: Id ensures DeleteBudget(b) in StepsOf(s) <==> s.budget == Some(b) { StepsAre(s, DeleteBudget(b)); }
  }

  lemma StrippedAll(w: World, s: State, next: Id)
    requires Recorded(s, w, next) && Numbered(w) && Integrity(w)
    ensures var r := Stripped(With(w, s, next), StepsOf(s)); r == Undone(w, s, next).(allowlist := r.allowlist)
  {
    hide StepsOf, With, Stripped;
    StrippedOthers(w, s, next);
    StrippedModels(w, s, next);
    StrippedKeys(w, s, next);
  }

  // Only which steps have happened counts, not when.
  lemma SameStripped(w: World, a: seq<Call>, b: seq<Call>)
    requires forall c :: c in a <==> c in b
    ensures Stripped(w, a) == Stripped(w, b)
  {
  }

  lemma AllDone(w: World, s: State, next: Id, allow: seq<string>, block: seq<string>, done: seq<Call>)
    requires Recorded(s, w, next) && Numbered(w) && Integrity(w) && forall c :: c in done <==> c in StepsOf(s)
    ensures Stripped(Relisted(With(w, s, next), allow, block), done) == Relisted(Undone(w, s, next), allow, block)
  {
    hide StepsOf, With, Stripped, Recorded, Numbered, Integrity;
    SameStripped(With(w, s, next), done, StepsOf(s));
    StrippedAll(w, s, next);
    StrippedRelisted(With(w, s, next), allow, block, done);
  }

  lemma WorksWithoutFault(s: State, script: seq<Fault>, j: nat)
    requires j < |StepsOf(s)|
    ensures StepWorks(s, [], script, j) ==> FaultAt(script, j).Fine?
  {
  }

  lemma FineIsUninterrupted(script: seq<Fault>, n: nat)
    requires FineUpTo(script, n)
    ensures Uninterrupted(script, n)
  {
  }

  lemma FineWorks(s: State, gone: seq<Call>, script: seq<Fault>, j: nat)
    requires FineUpTo(script, |StepsOf(s)|) && j < |StepsOf(s)|
    ensures StepWorks(s, gone, script, j) <==> StepsOf(s)[j] !in gone || StepsOf(s)[j].RevokeKey?
    ensures Uninterrupted(script, j + 1)
  {
    hide StepsOf, AccessSteps;
  }

  // Wherever setup had stopped, the steps all succeed exactly when none of their calls meets a
  // fault, and then everything setup created is removed or revoked and nothing else.
  lemma CleanTeardownUndoesSetup(w: World, s: State, next: Id, allow: seq<string>, block: seq<string>, script: seq<Fault>)
    requires Recorded(s, w, next) && Numbered(w) && Integrity(w)
    ensures var run := RunSteps(Relisted(With(w, s, next), allow, block), script, StepsOf(s));
      && (!run.failed && !run.broken <==> FineUpTo(script, |StepsOf(s)|))
      && (FineUpTo(script, |StepsOf(s)|) ==> run.world == Relisted(Undone(w, s, next), allow, block))
  {
    hide StepsOf, With, Stripped, Recorded, Numbered, Integrity, Effect, Refuses, Undone, StepWorks, Uninterrupted;
    var world, n := Relisted(With(w, s, next), allow, block), |StepsOf(s)|;
    StrippedNothing(world);
    RunExactly(w, s, next, allow, block, [], script, n);
    assert StepsOf(s)[..n] == StepsOf(s);
    var run := RunSteps(world, script, StepsOf(s));
    if FineUpTo(script, n) {
      FineIsUninterrupted(script, n);
      forall j | 0 <= j < n ensures StepWorks(s, [], script, j) {
        FineWorks(s, [], script, j);
      }
      forall c | c in StepsOf(s) ensures c in run.done {
        var j :| 0 <= j < n && StepsOf(s)[j] == c;
      }
      assert [] + run.done == run.done;
      AllDone(w, s, next, allow, block, run.done);
    } else if !run.broken {
      var j :| 0 <= j < n && !FaultAt(script, j).Fine?;
      FewerFaults(script, j, n);
      MoreFaults(script, j);
      WorksWithoutFault(s, script, j);
    }
  }

  // -- A second teardown --

  // After a first teardown with any faults, running the steps again without a fault removes or
  // revokes everything that is left. All the same the second run fails exactly when the first one
  // had deleted anything, because the server refuses to delete that again: a teardown of which a
  // deletion happened can clean up later, but never report success.
  lemma SecondTeardown(w: World, s: State, next: Id, allow: seq<string>, block: seq<string>, script: seq<Fault>,
                       allow': seq<string>, block': seq<string>, script': seq<Fault>)
    requires Recorded(s, w, next) && Numbered(w) && Integrity(w) && FineUpTo(script', |StepsOf(s)|)
    ensures var first := RunSteps(Relisted(With(w, s, next), allow, block), script, StepsOf(s));
      var again := RunSteps(Relisted(first.world, allow', block'), script', StepsOf(s));
      && again.world == Relisted(Undone(w, s, next), allow', block') && !again.broken
      && (again.failed <==> exists j :: 0 <= j < |StepsOf(s)| && StepWorks(s, [], script, j) && !StepsOf(s)[j].RevokeKey?)
  {
    hide StepsOf, With, Stripped, Recorded, Numbered, Integrity, Effect, Refuses, Undone, StepWorks, Uninterrupted;
    var world, n := With(w, s, next), |StepsOf(s)|;
    assert StepsOf(s)[..n] == StepsOf(s);
    StrippedNothing(Relisted(world, allow, block));
    RunExactly(w, s, next, allow, block, [], script, n);
    var first := RunSteps(Relisted(world, allow, block), script, StepsOf(s));
    assert [] + first.done == first.done;
    StrippedRelisted(world, allow, block, first.done);
    StrippedRelisted(world, allow', block', first.done);
    RunExactly(w, s, next, allow', block', first.done, script', n);
    var again := RunSteps(Relisted(first.world, allow', block'), script', StepsOf(s));
    forall j | 0 <= j < n
      ensures StepWorks(s, first.done, script', j) <==> StepsOf(s)[j] !in first.done || StepsOf(s)[j].RevokeKey?
      ensures Uninterrupted(script', j + 1) {
      FineWorks(s, first.done, script', j);
    }
    forall c | c in StepsOf(s) ensures c in first.done + again.done {
      var j :| 0 <= j < n && StepsOf(s)[j] == c;
    }
    AllDone(w, s, next, allow', block', first.done + again.done);
    if j :| 0 <= j < n && StepWorks(s, [], script, j) && !StepsOf(s)[j].RevokeKey? {
      assert StepsOf(s)[j] in first.done;
      assert Uninterrupted(script', j + 1) && !StepWorks(s, first.done, script', j);
    }
    if again.failed {
      var j :| 0 <= j < n && Uninterrupted(script', j + 1) && !StepWorks(s, first.done, script', j);
      assert StepsOf(s)[j] in first.done;
      assert StepWorks(s, [], script, j);
    }
    FineIsUninterrupted(script', n);
  }

  // -- The egress allowlist --

  // `whole` consists of `base` and `extra`, each in its own order, shuffled together.
  ghost predicate Shuffled(whole: seq<string>, base: seq<string>, extra: seq<string>) {
    if whole == [] then base == [] && extra == []
    else
      || (base != [] && base[0] == whole[0] && Shuffled(whole[1..], base[1..], extra))
      || (extra != [] && extra[0] == whole[0] && Shuffled(whole[1..], base, extra[1..]))
  }

  lemma {:induction false} ExceptAbsent(list: seq<string>, host: string)
    ensures Except(list, host) == list <==> host !in list
    ensures host !in Except(list, host)
    ensures |Except(list, host)| <= |list|
  {
    if list == [] {
    } else {
      ExceptAbsent(list[1..], host);
      var rest := Except(list[1..], host);
      assert list == [list[0]] + list[1..];
      assert [list[0]] + rest == list ==> ([list[0]] + rest)[1..] == list[1..];
    }
  }

  lemma {:induction false} ExceptShuffled(whole: seq<string>, base: seq<string>, extra: seq<string>, host: string)
    requires Shuffled(whole, base, extra)
    ensures Shuffled(Except(whole, host), Except(base, host), Except(extra, host))
  {
    if whole == [] {
    } else {
      var tail := Except(whole[1..], host);
      if base != [] && base[0] == whole[0] && Shuffled(whole[1..], base[1..], extra) {
        ExceptShuffled(whole[1..], base[1..], extra, host);
        if whole[0] != host {
          assert Except(whole, host)[1..] == tail && Except(base, host)[1..] == Except(base[1..], host);
        }
      } else {
        ExceptShuffled(whole[1..], base, extra[1..], host);
        if whole[0] != host {
          assert Except(whole, host)[1..] == tail && Except(extra, host)[1..] == Except(extra[1..], host);
        }
      }
    }
  }

  lemma {:induction false} ExceptLast(list: seq<string>, host: string)
    requires host !in list
    ensures Except(list + [host], host) == list
  {
    if list == [] {
    } else {
      assert (list + [host])[1..] == list[1..] + [host];
      ExceptLast(list[1..], host);
    }
  }

  lemma {:induction false} ShuffledWithNothing(whole: seq<string>, base: seq<string>)
    requires Shuffled(whole, base, [])
    ensures whole == base
  {
    if whole == [] {
    } else {
      ShuffledWithNothing(whole[1..], base[1..]);
    }
  }

  // Entries others put among the list while the pilot ran stay, in order, around the original
  // sequence; all of them exactly when none is the pilot's own host. Without any, the original
  // sequence itself is back.
  lemma AllowlistRestored(original: seq<string>, host: string, now: seq<string>, extra: seq<string>)
    requires host !in original && Shuffled(now, original + [host], extra)
    ensures Shuffled(Except(now, host), original, Except(extra, host))
    ensures Except(extra, host) == extra <==> host !in extra
    ensures extra == [] ==> Except(now, host) == original
  {
    ExceptShuffled(now, original + [host], extra, host);
    ExceptLast(original, host);
    ExceptAbsent(extra, host);
    if extra == [] {
      ShuffledWithNothing(Except(now, host), original);
    }
  }

  // -- Setup, other people's allowlist edits, teardown --

  function HostOf(s: State): seq<string> {
    if s.egressHost.Some? then [s.egressHost.value] else []
  }

  // How many calls a complete teardown makes.
  function TeardownCalls(s: State): nat {
    |StepsOf(s)| + if s.egressHost.Some? then 2 else 0
  }

  lemma LaterFaults(s: State, script: seq<Fault>)
    ensures var n := |StepsOf(s)|;
      FineUpTo(script, TeardownCalls(s)) <==> FineUpTo(script, n) && EgressHappens(s, Later(script, n))
  {
    hide StepsOf;
    var n := |StepsOf(s)|;
    assert FaultAt(script, n) == Head(Later(script, n)) && FaultAt(script, n + 1) == Head(Tail(Later(script, n)));
  }

  // Whatever call of setup failed, or none, the teardown succeeds exactly when none of its calls
  // meets a fault. The server is then as it was before setup: only ids are used up, the pilot
  // key's row stays, revoked, and of the lists as the others left them only the host is gone that
  // setup had added. What the others put into the allowlist stays around the original entries, in
  // order, but for that host.
  method SetupThenTeardown(soit: Soit, cfg: Config, allow: seq<string>, block: seq<string>, later: seq<Fault>, ghost extra: seq<string>)
    returns (ok: bool, pilot: Pilot)
    requires Numbered(soit.world) && Integrity(soit.world)
    modifies soit
    ensures fresh(pilot) && (ok <==> FineUpTo(later, TeardownCalls(pilot.state)))
    ensures pilot.file == if ok then None else Some(pilot.state)
    ensures ok ==> soit.world == Disallowed(Relisted(Undone(old(soit.world), pilot.state, soit.world.next), allow, block), pilot.state.egressHost)
    ensures ok ==>
      && soit.world.secrets == old(soit.world.secrets) && soit.world.providers == old(soit.world.providers)
      && soit.world.models == old(soit.world.models) && soit.world.virtuals == old(soit.world.virtuals)
      && soit.world.budgets == old(soit.world.budgets) && soit.world.blocklist == block
      && soit.world.keys == (if pilot.state.key.Some? then old(soit.world.keys)[pilot.state.key.value := false] else old(soit.world.keys))
    ensures pilot.state.egressHost.Some? ==> pilot.state.egressHost.value !in old(soit.world).allowlist
    ensures ok && Shuffled(allow, old(soit.world).allowlist + HostOf(pilot.state), extra) ==>
      Shuffled(soit.world.allowlist, old(soit.world).allowlist,
               if pilot.state.egressHost.Some? then Except(extra, pilot.state.egressHost.value) else extra)
  {
    hide With, Stripped, StepsOf, RunSteps, Numbered, Integrity, Uninterrupted, FineUpTo, TeardownCalls, EgressHappens;
    pilot := new Pilot();
    var finished := pilot.Setup(soit, cfg);
    ghost var s, script, next := pilot.state, later, soit.world.next;
    soit.world := Relisted(soit.world, allow, block);
    soit.script := later;
    CleanTeardownUndoesSetup(old(soit.world), s, next, allow, block, script);
    Attempts(soit.world, script, StepsOf(s));
    LaterFaults(s, script);
    if s.egressHost.Some? && Shuffled(allow, old(soit.world).allowlist + HostOf(s), extra) {
      AllowlistRestored(old(soit.world).allowlist, s.egressHost.value, allow, extra);
    }
    assert old(soit.world).allowlist + [] == old(soit.world).allowlist;
    ok := Teardown(soit, pilot);
  }
}
