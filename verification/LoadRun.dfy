// The concurrent run of the load baseline: any interleaving of the requests `gather` starts, each
// of which holds the semaphore while it works.
module LoadRun {
  import opened Results
  import opened LoadRequests
  import opened Percentiles

  datatype Answer = Answer(reply: InlineReply, started: real, answered: real)

  // What the requests observe, each by its number: the mode of the run fixes their kind.
  datatype Traffic = Worker(exchanges: nat -> Observed) | Inline(replies: nat -> Answer)

  // What is fixed before the run: the semaphore's value, the number of requests, what they observe,
  // and how many suspension points each still goes through once inside.
  datatype Plan = Plan(concurrency: nat, total: nat, traffic: Traffic, work: nat -> nat)

  ghost function OutcomeOf(plan: Plan, i: nat): Outcome {
    match plan.traffic
    case Worker(exchanges) => WorkerOutcome(exchanges(i))
    case Inline(replies) => InlineOutcome(replies(i).reply, replies(i).started, replies(i).answered)
  }

  // The performance counter never goes back during a request.
  ghost predicate Clocked(plan: Plan) {
    match plan.traffic
    case Worker(exchanges) => forall i :: Timed(exchanges(i))
    case Inline(replies) => forall i :: replies(i).started <= replies(i).answered
  }

  datatype State = State(
    waiting: set<nat>,     // not yet inside the semaphore
    active: map<nat, nat>, // inside it, with the suspension points left
    done: set<nat>,
    permits: int,          // what the semaphore has left
    lists: Lists,
    escaped: set<nat>)

  function Requests(total: nat): (r: set<nat>)
    ensures |r| == total && forall i: nat :: i in r <==> i < total
  {
    if total == 0 then {} else Requests(total - 1) + {total - 1}
  }

  function Start(plan: Plan): State {
    State(Requests(plan.total), map[], {}, plan.concurrency, Lists([], [], []), {})
  }

  // -- Steps --

  datatype Step = Acquire(i: nat) | Work(i: nat) | Finish(i: nat)

  predicate Enabled(s: State, step: Step) {
    match step
    case Acquire(i) => i in s.waiting && s.permits > 0
    case Work(i) => i in s.active && s.active[i] > 0
    case Finish(i) => i in s.active && s.active[i] == 0
  }

  // What a request appends, in one go, as it ends.
  ghost function Recorded(plan: Plan, i: nat, s: State): State {
    s.(lists := Append(s.lists, i, OutcomeOf(plan, i)),
       escaped := if OutcomeOf(plan, i).Escape? then s.escaped + {i} else s.escaped)
  }

  ghost function Next(plan: Plan, s: State, step: Step): State
    requires Enabled(s, step)
  {
    match step
    case Acquire(i) => s.(waiting := s.waiting - {i}, active := s.active[i := plan.work(i)], permits := s.permits - 1)
    case Work(i) => s.(active := s.active[i := s.active[i] - 1])
    case Finish(i) => Recorded(plan, i, s.(active := s.active - {i}, done := s.done + {i}, permits := s.permits + 1))
  }

  // A run: a sequence of steps taken from the start, each enabled when it is taken.
  ghost function After(plan: Plan, steps: seq<Step>): Option<State> {
    if steps == [] then Some(Start(plan))
    else
      var before := After(plan, steps[..|steps| - 1]);
      if before.Some? && Enabled(before.value, steps[|steps| - 1])
      then Some(Next(plan, before.value, steps[|steps| - 1]))
      else None
  }

  // -- What holds at every moment --

  ghost predicate Partition(a: set<nat>, b: set<nat>, c: set<nat>, whole: set<nat>) {
    a !! b && a !! c && b !! c && a + b + c == whole
  }

  // Every request is waiting, inside the semaphore, or done; the permits account for those inside.
  ghost predicate Placed(plan: Plan, s: State) {
    && s.permits >= 0 && |s.active.Keys| + s.permits == plan.concurrency
    && Partition(s.waiting, s.active.Keys, s.done, Requests(plan.total))
  }

  // Every request that is done has left exactly one trace; an error names its request and cause.
  ghost predicate Traced(plan: Plan, s: State) {
    && |s.lists.latencies| + |s.lists.errors| + |s.escaped| == |s.done|
    && (forall i :: i in s.escaped <==> i in s.done && OutcomeOf(plan, i).Escape?)
    && (forall e :: e in s.lists.errors ==> e.index in s.done && OutcomeOf(plan, e.index) == Outcome.Failed(e.failure))
  }

  // Waits are the latencies' companions, in worker mode only.
  ghost predicate Paired(plan: Plan, s: State) {
    && |s.lists.waits| == (if plan.traffic.Worker? then |s.lists.latencies| else 0)
    && forall k :: 0 <= k < |s.lists.waits| ==> 0.0 <= s.lists.waits[k] <= s.lists.latencies[k]
  }

  // What a request measures, if it succeeds.
  ghost function LatencyOf(plan: Plan, i: nat): multiset<real> {
    if OutcomeOf(plan, i).Success? then multiset{OutcomeOf(plan, i).latency} else multiset{}
  }

  // The measurements of the requests in `done` that are below `n`.
  ghost function Latencies(plan: Plan, done: set<nat>, n: nat): multiset<real> {
    if n == 0 then multiset{}
    else Latencies(plan, done, n - 1) + if n - 1 in done then LatencyOf(plan, n - 1) else multiset{}
  }

  ghost function WaitsOf(plan: Plan, i: nat): multiset<real> {
    if OutcomeOf(plan, i).Success? && OutcomeOf(plan, i).wait.Some? then multiset{OutcomeOf(plan, i).wait.value} else multiset{}
  }

  ghost function Waits(plan: Plan, done: set<nat>, n: nat): multiset<real> {
    if n == 0 then multiset{}
    else Waits(plan, done, n - 1) + if n - 1 in done then WaitsOf(plan, n - 1) else multiset{}
  }

  // The lists hold, in some order, what the requests that ended measured.
  ghost predicate Measured(plan: Plan, s: State) {
    && multiset(s.lists.latencies) == Latencies(plan, s.done, plan.total)
    && multiset(s.lists.waits) == Waits(plan, s.done, plan.total)
  }

  ghost predicate Invariant(plan: Plan, s: State) {
    Placed(plan, s) && Traced(plan, s) && Measured(plan, s)
  }

  lemma {:induction false} NothingMeasured(plan: Plan, n: nat)
    ensures Latencies(plan, {}, n) == multiset{} && Waits(plan, {}, n) == multiset{}
  {
    if n == 0 {
    } else {
      NothingMeasured(plan, n - 1);
    }
  }

  lemma StartHolds(plan: Plan)
    ensures Invariant(plan, Start(plan)) && Paired(plan, Start(plan))
  {
    assert Start(plan).active.Keys == {};
    NothingMeasured(plan, plan.total);
  }

  lemma {:induction false} OneMoreLatency(plan: Plan, done: set<nat>, i: nat, n: nat)
    requires i !in done
    ensures Latencies(plan, done + {i}, n) == Latencies(plan, done, n) + if i < n then LatencyOf(plan, i) else multiset{}
  {
    hide LatencyOf;
    if n == 0 {
    } else {
      OneMoreLatency(plan, done, i, n - 1);
    }
  }

  lemma {:induction false} OneMoreWait(plan: Plan, done: set<nat>, i: nat, n: nat)
    requires i !in done
    ensures Waits(plan, done + {i}, n) == Waits(plan, done, n) + if i < n then WaitsOf(plan, i) else multiset{}
  {
    hide WaitsOf;
    if n == 0 {
    } else {
      OneMoreWait(plan, done, i, n - 1);
    }
  }

  // Moving a request from one part to another leaves a partition of the same requests.
  lemma Move(from: set<nat>, to: set<nat>, other: set<nat>, whole: set<nat>, i: nat)
    requires Partition(from, to, other, whole) && i in from
    ensures Partition(from - {i}, to + {i}, other, whole)
    ensures |from - {i}| == |from| - 1 && |to + {i}| == |to| + 1
  {
  }

  lemma MoveLast(other: set<nat>, from: set<nat>, to: set<nat>, whole: set<nat>, i: nat)
    requires Partition(other, from, to, whole) && i in from
    ensures Partition(other, from - {i}, to + {i}, whole)
    ensures |from - {i}| == |from| - 1
  {
  }

  lemma FinishMoves(plan: Plan, s: State, i: nat)
    requires Enabled(s, Finish(i))
    ensures var t := Next(plan, s, Finish(i));
      t.waiting == s.waiting && t.active == s.active - {i} && t.done == s.done + {i} && t.permits == s.permits + 1
  {
  }

  lemma AcquirePlaces(plan: Plan, s: State, i: nat)
    requires Placed(plan, s) && Enabled(s, Acquire(i))
    ensures Placed(plan, Next(plan, s, Acquire(i)))
  {
    hide Partition, Requests;
    Move(s.waiting, s.active.Keys, s.done, Requests(plan.total), i);
    assert Next(plan, s, Acquire(i)).active.Keys == s.active.Keys + {i};
  }

  lemma WorkPlaces(plan: Plan, s: State, i: nat)
    requires Placed(plan, s) && Enabled(s, Work(i))
    ensures Placed(plan, Next(plan, s, Work(i)))
  {
    hide Partition, Requests;
    assert Next(plan, s, Work(i)).active.Keys == s.active.Keys;
  }

  lemma FinishPlaces(plan: Plan, s: State, i: nat)
    requires Placed(plan, s) && Enabled(s, Finish(i))
    ensures Placed(plan, Next(plan, s, Finish(i)))
  {
    FinishMoves(plan, s, i);
    hide Partition, Requests, Next;
    MoveLast(s.waiting, s.active.Keys, s.done, Requests(plan.total), i);
    assert (s.active - {i}).Keys == s.active.Keys - {i};
  }

  lemma NextPlaces(plan: Plan, s: State, step: Step)
    requires Placed(plan, s) && Enabled(s, step)
    ensures Placed(plan, Next(plan, s, step))
  {
    hide Placed, Next, Enabled;
    match step
    case Acquire(i) => AcquirePlaces(plan, s, i);
    case Work(i) => WorkPlaces(plan, s, i);
    case Finish(i) => FinishPlaces(plan, s, i);
  }

  lemma EndTraces(plan: Plan, s: State, i: nat)
    requires i !in s.done && Traced(plan, s)
    ensures Traced(plan, Recorded(plan, i, s.(done := s.done + {i})))
  {
    hide OutcomeOf;
  }

  lemma NextTraces(plan: Plan, s: State, step: Step)
    requires s.active.Keys !! s.done && Traced(plan, s) && Enabled(s, step)
    ensures Traced(plan, Next(plan, s, step))
  {
    hide OutcomeOf;
    if step.Finish? {
      EndTraces(plan, s, step.i);
    }
  }

  lemma NextMeasures(plan: Plan, s: State, step: Step)
    requires Placed(plan, s) && Measured(plan, s) && Enabled(s, step)
    ensures Measured(plan, Next(plan, s, step))
  {
    hide OutcomeOf;
    if step.Finish? {
      var i := step.i;
      assert i in s.waiting + s.active.Keys + s.done && i !in s.done;
      OneMoreLatency(plan, s.done, i, plan.total);
      OneMoreWait(plan, s.done, i, plan.total);
    }
  }

  // A successful request has a wait in worker mode only, and never one longer than its latency.
  lemma WaitIsWithinLatency(plan: Plan, i: nat)
    requires Clocked(plan) && OutcomeOf(plan, i).Success?
    ensures OutcomeOf(plan, i).wait.Some? <==> plan.traffic.Worker?
    ensures plan.traffic.Worker? ==> 0.0 <= OutcomeOf(plan, i).wait.value <= OutcomeOf(plan, i).latency
  {
    if plan.traffic.Worker? {
      WaitIsMeant(plan.traffic.exchanges(i));
    }
  }

  lemma NextPairs(plan: Plan, s: State, step: Step)
    requires Clocked(plan) && Paired(plan, s) && Enabled(s, step)
    ensures Paired(plan, Next(plan, s, step))
  {
    hide OutcomeOf, Clocked;
    if step.Finish? && OutcomeOf(plan, step.i).Success? {
      WaitIsWithinLatency(plan, step.i);
    }
  }

  // At every moment of every run at most `concurrency` requests are inside the semaphore, every
  // request is in exactly one place, each one that ended left exactly one trace, and the lists
  // hold what the ended requests measured.
  lemma {:induction false} RunsKeepInvariant(plan: Plan, steps: seq<Step>)
    requires After(plan, steps).Some?
    ensures Invariant(plan, After(plan, steps).value)
    ensures |After(plan, steps).value.active.Keys| <= plan.concurrency
  {
    hide Next, Enabled, Traced, Measured;
    if steps == [] {
      StartHolds(plan);
    } else {
      var init := steps[..|steps| - 1];
      RunsKeepInvariant(plan, init);
      NextPlaces(plan, After(plan, init).value, steps[|steps| - 1]);
      NextTraces(plan, After(plan, init).value, steps[|steps| - 1]);
      NextMeasures(plan, After(plan, init).value, steps[|steps| - 1]);
    }
  }

  // As long as the clock never goes back during a request, waits pair with latencies in worker
  // mode, none longer than its latency.
  lemma {:induction false} RunsKeepPairs(plan: Plan, steps: seq<Step>)
    requires Clocked(plan) && After(plan, steps).Some?
    ensures Paired(plan, After(plan, steps).value)
  {
    hide Next, Enabled, Paired, Clocked;
    if steps == [] {
      StartHolds(plan);
    } else {
      var init := steps[..|steps| - 1];
      RunsKeepPairs(plan, init);
      NextPairs(plan, After(plan, init).value, steps[|steps| - 1]);
    }
  }

  // -- Termination --

  function TotalWork(plan: Plan, n: nat): nat {
    if n == 0 then 0 else TotalWork(plan, n - 1) + plan.work(n - 1) + 2
  }

  // The steps one request still has to take.
  function Cost(plan: Plan, s: State, i: nat): nat {
    if i in s.waiting then plan.work(i) + 2 else if i in s.active then s.active[i] + 1 else 0
  }

  // The steps the requests below `n` still have to take.
  function Remaining(plan: Plan, s: State, n: nat): nat {
    if n == 0 then 0
    else Remaining(plan, s, n - 1) + Cost(plan, s, n - 1)
  }

  function Who(step: Step): nat {
    step.i
  }

  lemma OwnCost(plan: Plan, s: State, step: Step, i: nat)
    requires s.waiting !! s.active.Keys && Enabled(s, step)
    ensures Cost(plan, Next(plan, s, step), i) == Cost(plan, s, i) - if Who(step) == i then 1 else 0
  {
  }

  lemma {:induction false} StepCosts(plan: Plan, s: State, step: Step, n: nat)
    requires s.waiting !! s.active.Keys && Enabled(s, step)
    ensures Remaining(plan, Next(plan, s, step), n) == Remaining(plan, s, n) - if Who(step) < n then 1 else 0
  {
    if n == 0 {
    } else {
      StepCosts(plan, s, step, n - 1);
      OwnCost(plan, s, step, n - 1);
    }
  }

  lemma {:induction false} StartCosts(plan: Plan, n: nat)
    requires n <= plan.total
    ensures Remaining(plan, Start(plan), n) == TotalWork(plan, n)
  {
    if n == 0 {
    } else {
      StartCosts(plan, n - 1);
    }
  }

  // Every run takes the steps the requests have in them and no more: it is never longer than the
  // total work, whatever the interleaving.
  lemma {:induction false} RunsTerminate(plan: Plan, steps: seq<Step>)
    requires After(plan, steps).Some?
    ensures |steps| + Remaining(plan, After(plan, steps).value, plan.total) == TotalWork(plan, plan.total)
  {
    StartCosts(plan, plan.total);
    if steps == [] {
    } else {
      var init, last := steps[..|steps| - 1], steps[|steps| - 1];
      RunsTerminate(plan, init);
      RunsKeepInvariant(plan, init);
      var s := After(plan, init).value;
      StepCosts(plan, s, last, plan.total);
      assert Who(last) in s.waiting + s.active.Keys + s.done;
    }
  }

  // -- Completion --

  ghost predicate Stuck(s: State) {
    forall step :: !Enabled(s, step)
  }

  // As long as a request is left and the semaphore admits anyone at all, some step is possible.
  lemma SomeStepIsPossible(plan: Plan, s: State) returns (step: Step)
    requires Placed(plan, s) && plan.concurrency > 0 && s.done != Requests(plan.total)
    ensures Enabled(s, step)
  {
    if s.active.Keys != {} {
      var i :| i in s.active.Keys;
      step := if s.active[i] > 0 then Work(i) else Finish(i);
    } else {
      assert s.active == map[];
      assert s.waiting + s.active.Keys + s.done == s.waiting + s.done;
      assert {} + s.done == s.done;
      var i :| i in s.waiting;
      step := Acquire(i);
    }
  }

  lemma NoStepLeft(plan: Plan, s: State, step: Step)
    requires Placed(plan, s) && (s.done == Requests(plan.total) || plan.concurrency == 0)
    ensures !Enabled(s, step)
  {
    if plan.concurrency == 0 {
      assert |s.active.Keys| == 0;
    } else {
      assert forall i :: i in s.waiting || i in s.active.Keys ==> i in Requests(plan.total);
    }
  }

  // A run comes to a standstill exactly when every request has ended, or the semaphore never lets
  // one in.
  lemma StandstillExactly(plan: Plan, steps: seq<Step>)
    requires After(plan, steps).Some?
    ensures var s := After(plan, steps).value;
      Stuck(s) <==> s.done == Requests(plan.total) || plan.concurrency == 0
  {
    RunsKeepInvariant(plan, steps);
    var s := After(plan, steps).value;
    if plan.concurrency > 0 && s.done != Requests(plan.total) {
      var step := SomeStepIsPossible(plan, s);
      assert Enabled(s, step);
    } else {
      forall step ensures !Enabled(s, step) {
        NoStepLeft(plan, s, step);
      }
    }
  }

  // When a run with at least one permit can go no further, every request has been counted:
  // successes and errors add up to the number of requests exactly when no request let an
  // exception escape (an escape makes `gather` raise, and there is no report).
  lemma CompletedRunsAddUp(plan: Plan, steps: seq<Step>)
    requires plan.concurrency > 0 && After(plan, steps).Some? && Stuck(After(plan, steps).value)
    ensures var s := After(plan, steps).value;
      && |s.lists.latencies| + |s.lists.errors| + |s.escaped| == plan.total
      && (|s.lists.latencies| + |s.lists.errors| == plan.total <==> forall i :: 0 <= i < plan.total ==> !OutcomeOf(plan, i).Escape?)
  {
    hide OutcomeOf, Measured;
    StandstillExactly(plan, steps);
    RunsKeepInvariant(plan, steps);
    var s := After(plan, steps).value;
    if forall i :: 0 <= i < plan.total ==> !OutcomeOf(plan, i).Escape? {
      assert s.escaped == {};
    }
    if s.escaped == {} {
      forall i | 0 <= i < plan.total ensures !OutcomeOf(plan, i).Escape? {
        assert i in s.done;
        assert i !in s.escaped;
      }
    }
  }

  // The reported figures do not depend on the interleaving: two completed runs of the same
  // requests have the same latency and wait summaries and the same number of errors.
  lemma RunsReportAlike(plan: Plan, steps: seq<Step>, steps': seq<Step>)
    requires plan.concurrency > 0 && After(plan, steps).Some? && After(plan, steps').Some?
    requires Stuck(After(plan, steps).value) && Stuck(After(plan, steps').value)
    ensures var s, s' := After(plan, steps).value.lists, After(plan, steps').value.lists;
      && Summarize(s.latencies) == Summarize(s'.latencies) && Summarize(s.waits) == Summarize(s'.waits)
      && |s.latencies| == |s'.latencies| && |s.errors| == |s'.errors|
  {
    hide OutcomeOf, Placed, Summarize, Latencies, Waits;
    StandstillExactly(plan, steps);
    StandstillExactly(plan, steps');
    RunsKeepInvariant(plan, steps);
    RunsKeepInvariant(plan, steps');
    var s, s' := After(plan, steps).value, After(plan, steps').value;
    SummaryIgnoresOrder(s.lists.latencies, s'.lists.latencies);
    SummaryIgnoresOrder(s.lists.waits, s'.lists.waits);
    assert |s.lists.latencies| == |multiset(s.lists.latencies)| == |s'.lists.latencies|;
    assert s.escaped == s'.escaped;
  }
}
