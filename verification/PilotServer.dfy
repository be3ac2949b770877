// The part of a SOIT server the gateway pilot talks to. A call either happens and answers, or
// does not happen and raises.
module PilotServer {
  type Id = nat

  datatype World = World(
    next: Id,                    // ids from here on are unused
    secrets: set<Id>,
    providers: map<Id, Id>,      // a provider and the secret holding its credential
    models: map<Id, Id>,         // a provider model and its provider
    virtuals: map<Id, seq<Id>>,  // a virtual model and its targets, the first one tried first
    keys: map<Id, bool>,         // an API key's row, and whether the key is still active
    budgets: map<Id, Id>,        // a budget and the key it limits
    allowlist: seq<string>,
    blocklist: seq<string>)

  datatype Call =
    | GetEgress
    | PutEgress(allowlist: seq<string>, blocklist: seq<string>)
    | PostSecret
    | PostProvider(secret: Id)
    | PostModel(provider: Id)
    | PostVirtual(targets: seq<Id>)
    | PostKey
    | PostBudget(key: Id)
    | RevokeKey(key: Id)
    | DeleteBudget(budget: Id)
    | DeleteVirtual(virtual: Id)
    | DeleteModel(provider: Id, model: Id)
    | DeleteProvider(provider: Id)
    | DeleteSecret(secret: Id)

  // What goes wrong with a call from outside: nothing, an answer the client turns into
  // `PilotError`, or any other exception, such as a lost connection.
  datatype Fault = Fine | PilotError | OtherException

  datatype Reply = Done(id: Id) | Raised(fault: Fault)

  // What the server itself refuses: unknown resources, and a provider that still has models.
  predicate Refuses(w: World, call: Call) {
    match call
    case PostVirtual(targets) => exists m :: m in targets && m !in w.models
    case RevokeKey(k) => k !in w.keys
    case DeleteBudget(b) => b !in w.budgets
    case DeleteVirtual(v) => v !in w.virtuals
    case DeleteModel(p, m) => m !in w.models || w.models[m] != p
    case DeleteProvider(p) => p !in w.providers || exists m :: m in w.models && w.models[m] == p
    case DeleteSecret(s) => s !in w.secrets
    case _ => false
  }

  function Effect(w: World, call: Call): World {
    match call
    case GetEgress => w
    case PutEgress(allow, block) => w.(allowlist := allow, blocklist := block)
    case PostSecret => w.(next := w.next + 1, secrets := w.secrets + {w.next})
    case PostProvider(s) => w.(next := w.next + 1, providers := w.providers[w.next := s])
    case PostModel(p) => w.(next := w.next + 1, models := w.models[w.next := p])
    case PostVirtual(targets) => w.(next := w.next + 1, virtuals := w.virtuals[w.next := targets])
    case PostKey => w.(next := w.next + 1, keys := w.keys[w.next := true])
    case PostBudget(k) => w.(next := w.next + 1, budgets := w.budgets[w.next := k])
    case RevokeKey(k) => w.(keys := w.keys[k := false])
    case DeleteBudget(b) => w.(budgets := w.budgets - {b})
    case DeleteVirtual(v) => w.(virtuals := w.virtuals - {v})
    case DeleteModel(_, m) => w.(models := w.models - {m})
    case DeleteProvider(p) => w.(providers := w.providers - {p})
    case DeleteSecret(s) => w.(secrets := w.secrets - {s})
  }

  function Happens(w: World, fault: Fault, call: Call): bool {
    fault.Fine? && !Refuses(w, call)
  }

  function Head(script: seq<Fault>): Fault {
    if script == [] then Fine else script[0]
  }

  function Tail(script: seq<Fault>): seq<Fault> {
    if script == [] then [] else script[1..]
  }

  // What is left of the script after so many calls.
  function Later(script: seq<Fault>, calls: nat): seq<Fault> {
    if calls <= |script| then script[calls..] else []
  }

  // What goes wrong with the call of a number, counting from 0.
  function FaultAt(script: seq<Fault>, call: nat): Fault {
    if call < |script| then script[call] else Fine
  }

  // None of the first calls meets an exception other than `PilotError`.
  ghost predicate Uninterrupted(script: seq<Fault>, calls: nat) {
    forall i :: 0 <= i < calls ==> !FaultAt(script, i).OtherException?
  }

  ghost predicate FineUpTo(script: seq<Fault>, calls: nat) {
    forall i :: 0 <= i < calls ==> FaultAt(script, i).Fine?
  }

  ghost predicate AllFine(script: seq<Fault>) {
    forall f :: f in script ==> f.Fine?
  }

  // -- Following a plan of calls --

  // What there is to see of a server between calls.
  datatype Trace = Trace(world: World, script: seq<Fault>, log: seq<Call>)

  function AfterCalls(w: World, calls: seq<Call>): World {
    if calls == [] then w else Effect(AfterCalls(w, calls[..|calls| - 1]), calls[|calls| - 1])
  }

  // Between the two moments the calls of the plan were made, one after another, each exactly if
  // none before it had met a fault; those that met none have happened.
  ghost predicate Followed(plan: seq<Call>, before: Trace, after: Trace) {
    |before.log| <= |after.log| <= |before.log| + |plan| &&
    var made := |after.log| - |before.log|;
    && after.log == before.log + plan[..made] && after.script == Later(before.script, made)
    && (forall j :: 0 <= j < |plan| ==> (j < made <==> FineUpTo(before.script, j)))
    && after.world == AfterCalls(before.world, plan[..if FineUpTo(before.script, made) then made else made - 1])
  }

  lemma FewerFine(script: seq<Fault>, m: nat, n: nat)
    requires m <= n && FineUpTo(script, n)
    ensures FineUpTo(script, m)
  {
  }

  lemma StillFaulty(script: seq<Fault>, m: nat, n: nat)
    requires m <= n && !FineUpTo(script, m)
    ensures !FineUpTo(script, n)
  {
  }

  lemma FineFrom(script: seq<Fault>, m: nat, n: nat)
    requires FineUpTo(script, m)
    ensures FineUpTo(script, m + n) <==> FineUpTo(Later(script, m), n)
    ensures Later(Later(script, m), n) == Later(script, m + n)
  {
    assert forall i :: 0 <= i < n ==> FaultAt(Later(script, m), i) == FaultAt(script, m + i);
    assert forall i :: m <= i < m + n ==> FaultAt(script, i) == FaultAt(Later(script, m), i - m);
  }

  lemma {:induction false} AfterMoreCalls(w: World, a: seq<Call>, b: seq<Call>)
    ensures AfterCalls(AfterCalls(w, a), b) == AfterCalls(w, a + b)
  {
    hide Effect;
    if b == [] {
      assert a + b == a;
    } else {
      AfterMoreCalls(w, a, b[..|b| - 1]);
      assert (a + b)[..|a + b| - 1] == a + b[..|b| - 1];
    }
  }

  lemma NothingPlanned(t: Trace)
    ensures Followed([], t, t) && FineUpTo(t.script, 0)
  {
    assert t.log + [] == t.log;
  }

  // A plan followed to its end is behind, whatever is planned next.
  lemma FollowedAll(plan: seq<Call>, before: Trace, after: Trace)
    requires Followed(plan, before, after) && FineUpTo(before.script, |plan|)
    ensures after.log == before.log + plan && after.script == Later(before.script, |plan|)
    ensures after.world == AfterCalls(before.world, plan)
  {
    var made := |after.log| - |before.log|;
    FewerFine(before.script, made, |plan|);
    assert plan[..|plan|] == plan;
  }

  lemma FollowedThen(first: seq<Call>, next: seq<Call>, t0: Trace, t1: Trace, t2: Trace)
    requires Followed(first, t0, t1) && FineUpTo(t0.script, |first|) && Followed(next, t1, t2)
    ensures Followed(first + next, t0, t2)
    ensures FineUpTo(t0.script, |first + next|) <==> FineUpTo(t1.script, |next|)
  {
    hide FineUpTo, Later;
    FollowedAll(first, t0, t1);
    var n, made := |first|, |t2.log| - |t1.log|;
    var happened := if FineUpTo(t1.script, made) then made else made - 1;
    FineFrom(t0.script, n, made);
    FineFrom(t0.script, n, |next|);
    assert (first + next)[..n + made] == first + next[..made];
    forall j | 0 <= j < |first + next| ensures j < n + made <==> FineUpTo(t0.script, j) {
      if j < n {
        FewerFine(t0.script, j, n);
      } else {
        FineFrom(t0.script, n, j - n);
      }
    }
    assert 0 <= happened <= made by {
      NothingPlanned(t1);
    }
    AfterMoreCalls(t0.world, first, next[..happened]);
    assert (first + next)[..n + happened] == first + next[..happened];
  }

  // After a fault nothing further is called.
  lemma FollowedToFault(first: seq<Call>, next: seq<Call>, t0: Trace, t1: Trace)
    requires Followed(first, t0, t1) && !FineUpTo(t0.script, |first|)
    ensures Followed(first + next, t0, t1) && !FineUpTo(t0.script, |first + next|)
  {
    hide Later, AfterCalls;
    var made := |t1.log| - |t0.log|;
    StillFaulty(t0.script, |first|, |first + next|);
    assert (first + next)[..made] == first[..made];
    NothingPlanned(t0);
    var happened := if FineUpTo(t0.script, made) then made else made - 1;
    assert happened >= 0 && (first + next)[..happened] == first[..happened];
    forall j | |first| <= j < |first + next| ensures !FineUpTo(t0.script, j) {
      StillFaulty(t0.script, |first|, j);
    }
  }

  lemma OneCall(call: Call, t0: Trace, t1: Trace)
    requires !Refuses(t0.world, call) && t1.script == Tail(t0.script) && t1.log == t0.log + [call]
    requires t1.world == if Head(t0.script).Fine? then Effect(t0.world, call) else t0.world
    ensures Followed([call], t0, t1) && (FineUpTo(t0.script, 1) <==> Head(t0.script).Fine?)
  {
    hide Effect, Refuses;
    assert Head(t0.script) == FaultAt(t0.script, 0);
    assert [call][..1] == [call] && [call][..0] == [];
    assert AfterCalls(t0.world, []) == t0.world && AfterCalls(t0.world, [call]) == Effect(t0.world, call);
  }

  // One more call of a plan followed so far.
  lemma NextCall(done: seq<Call>, call: Call, t0: Trace, t1: Trace, t2: Trace)
    requires Followed(done, t0, t1) && FineUpTo(t0.script, |done|)
    requires !Refuses(t1.world, call) && t2.script == Tail(t1.script) && t2.log == t1.log + [call]
    requires t2.world == if Head(t1.script).Fine? then Effect(t1.world, call) else t1.world
    ensures Followed(done + [call], t0, t2) && (FineUpTo(t0.script, |done + [call]|) <==> Head(t1.script).Fine?)
  {
    hide Effect, Refuses, Followed, FineUpTo;
    OneCall(call, t1, t2);
    FollowedThen(done, [call], t0, t1, t2);
  }

  class Soit {
    var world: World
    var script: seq<Fault>     // the faults of the calls to come; none once it is used up
    ghost var log: seq<Call>   // every call attempted

    ghost function Now(): Trace
      reads this
    {
      Trace(world, script, log)
    }

    method Api(call: Call) returns (r: Reply)
      modifies this
      ensures script == Tail(old(script)) && log == old(log) + [call]
      ensures r.Done? <==> Happens(old(world), Head(old(script)), call)
      ensures world == if r.Done? then Effect(old(world), call) else old(world)
      ensures r.Done? ==> r.id == old(world).next
      ensures r.Raised? ==> r.fault == if Head(old(script)).OtherException? then OtherException else PilotError
    {
      var fault := Head(script);
      if Happens(world, fault, call) {
        r := Done(world.next);
        world := Effect(world, call);
      } else {
        r := Raised(if fault.OtherException? then OtherException else PilotError);
      }
      script := Tail(script);
      log := log + [call];
    }
  }

  // -- Integrity --

  ghost predicate ProvidersHaveSecrets(w: World) {
    forall p :: p in w.providers ==> w.providers[p] in w.secrets
  }

  ghost predicate ModelsHaveProviders(w: World) {
    forall m :: m in w.models ==> w.models[m] in w.providers
  }

  ghost predicate VirtualsHaveTargets(w: World) {
    forall v, m :: v in w.virtuals && m in w.virtuals[v] ==> m in w.models
  }

  ghost predicate BudgetsHaveKeys(w: World) {
    forall b :: b in w.budgets ==> w.budgets[b] in w.keys
  }

  ghost predicate Integrity(w: World) {
    ProvidersHaveSecrets(w) && ModelsHaveProviders(w) && VirtualsHaveTargets(w) && BudgetsHaveKeys(w)
  }

  // Ids in use are below the counter.
  ghost predicate Numbered(w: World) {
    && (forall s :: s in w.secrets ==> s < w.next)
    && (forall p :: p in w.providers ==> p < w.next)
    && (forall m :: m in w.models ==> m < w.next)
    && (forall v :: v in w.virtuals ==> v < w.next)
    && (forall k :: k in w.keys ==> k < w.next)
    && (forall b :: b in w.budgets ==> b < w.next)
  }
}
