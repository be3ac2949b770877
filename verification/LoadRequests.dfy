// One request of the load baseline: what it reads from the server and what it appends to the
// shared sample.
module LoadRequests {
  import opened Results

  // One line of the event stream: not a `data:` line, undecodable, a JSON value that is no object
  // (on which `event.get` raises), or an event of some type.
  datatype Line = Other | Undecodable | NoObject | Event(kind: string)

  // How reading ends after the lines seen: the stream closes, the HTTP library raises, or
  // something the request does not catch is raised.
  datatype Ending = Closed | HttpError | Uncaught

  datatype Creation = Created | CreationHttpError | CreationUncaught

  // Everything a worker-mode request observes, with the clock readings (in seconds) it would take
  // when sending, at each line, and at the end.
  datatype Exchange = Exchange(
    creation: Creation,
    opening: Ending,          // `Closed` when the response started
    status: int,
    lines: seq<Line>,
    ending: Ending,           // of the stream, or of the body of a refusal
    started: real,
    times: seq<real>,
    finished: real)

  // One clock reading for each line.
  type Observed = x: Exchange | |x.times| == |x.lines| witness Exchange(Created, Closed, 200, [], Closed, 0.0, [], 0.0)

  // The performance counter never goes back.
  ghost predicate Timed(x: Exchange) {
    && |x.times| == |x.lines|
    && x.started <= x.finished
    && (forall i :: 0 <= i < |x.times| ==> x.started <= x.times[i] <= x.finished)
  }

  datatype Failure =
    | ThreadFailed
    | BadStatus(status: int)
    | TransportFailed
    | StreamEnded(terminal: Option<string>, last: Option<string>)

  datatype Error = Error(index: nat, failure: Failure)

  // -- What the stream says --

  predicate Terminal(line: Line) {
    line == Event("RUN_FINISHED") || line == Event("RUN_ERROR")
  }

  // Reading stops at the first terminal event, or at a line that raises.
  predicate Stops(line: Line) {
    Terminal(line) || line.NoObject?
  }

  ghost predicate StopsFirstAt(lines: seq<Line>, i: nat) {
    i < |lines| && Stops(lines[i]) && forall j :: 0 <= j < i ==> !Stops(lines[j])
  }

  ghost predicate NeverStops(lines: seq<Line>) {
    forall i :: 0 <= i < |lines| ==> !Stops(lines[i])
  }

  ghost predicate StartsFirstAt(lines: seq<Line>, i: nat) {
    i < |lines| && lines[i] == Event("RUN_STARTED") && forall j :: 0 <= j < i ==> lines[j] != Event("RUN_STARTED")
  }

  lemma StopsOnce(lines: seq<Line>)
    ensures forall i: nat, j: nat :: StopsFirstAt(lines, i) && StopsFirstAt(lines, j) ==> i == j
    ensures forall i: nat :: StopsFirstAt(lines, i) ==> !NeverStops(lines)
  {
  }

  // The run is reported finished: the request went through and the first terminal event of its
  // stream is RUN_FINISHED, with nothing before it that raises.
  ghost predicate Finishes(x: Exchange) {
    && x.creation.Created? && x.opening.Closed? && (x.status == 200 || x.status == 201)
    && exists i: nat :: StopsFirstAt(x.lines, i) && x.lines[i] == Event("RUN_FINISHED")
  }

  // An exception the request does not catch comes first.
  ghost predicate Escapes(x: Exchange) {
    || x.creation.CreationUncaught?
    || (x.creation.Created? && x.opening.Uncaught?)
    || (x.creation.Created? && x.opening.Closed? && x.status != 200 && x.status != 201 && x.ending.Uncaught?)
    || (x.creation.Created? && x.opening.Closed? && (x.status == 200 || x.status == 201)
        && ((NeverStops(x.lines) && x.ending.Uncaught?) || exists i: nat :: StopsFirstAt(x.lines, i) && x.lines[i].NoObject?))
  }

  // The measured wait: to the first RUN_STARTED before the terminal event, else the whole latency.
  ghost predicate IsWait(x: Exchange, wait: real)
    requires Timed(x)
  {
    exists end: nat :: StopsFirstAt(x.lines, end) &&
      ((exists i: nat :: i < end && StartsFirstAt(x.lines, i) && wait == (x.times[i] - x.started) * 1000.0)
       || ((forall i :: 0 <= i < end ==> x.lines[i] != Event("RUN_STARTED")) && wait == (x.finished - x.started) * 1000.0))
  }

  // The type of the last event of the stream.
  function LastKind(lines: seq<Line>): Option<string> {
    if lines == [] then None
    else if lines[|lines| - 1].Event? then Some(lines[|lines| - 1].kind)
    else LastKind(lines[..|lines| - 1])
  }

  // What is recorded about a request that neither finishes nor escapes.
  function FailureOf(x: Exchange): Failure {
    if x.creation.CreationHttpError? then ThreadFailed
    else if x.opening.HttpError? then TransportFailed
    else if x.status != 200 && x.status != 201 then if x.ending.HttpError? then TransportFailed else BadStatus(x.status)
    else if exists i :: 0 <= i < |x.lines| && Terminal(x.lines[i]) then StreamEnded(Some("RUN_ERROR"), Some("RUN_ERROR"))
    else if x.ending.HttpError? then TransportFailed
    else StreamEnded(None, LastKind(x.lines))
  }

  // The wait seen by the end of the stream: to the first RUN_STARTED before it, if any.
  ghost predicate WaitSeen(lines: seq<Line>, times: seq<real>, started: real, end: nat, wait: Option<real>)
    requires |times| == |lines|
  {
    && (wait.None? ==> forall j :: 0 <= j < end && j < |lines| ==> lines[j] != Event("RUN_STARTED"))
    && (wait.Some? ==> exists j: nat :: j < end && StartsFirstAt(lines, j) && wait.value == (times[j] - started) * 1000.0)
  }

  // The loop over the lines of the stream, up to the first terminal event.
  method ReadStream(lines: seq<Line>, times: seq<real>, started: real)
    returns (wait: Option<real>, terminal: Option<string>, last: Option<string>, raised: bool, ghost end: nat)
    requires |times| == |lines|
    ensures raised ==> StopsFirstAt(lines, end) && lines[end].NoObject?
    ensures !raised && terminal.None? ==> NeverStops(lines) && last == LastKind(lines)
    ensures !raised && terminal.Some? ==> StopsFirstAt(lines, end) && lines[end] == Event(terminal.value) && last == terminal
    ensures !raised && terminal.Some? ==> WaitSeen(lines, times, started, end, wait)
  {
    wait, terminal, last, raised := None, None, None, false;
    for i := 0 to |lines|
      invariant forall j :: 0 <= j < i ==> !Stops(lines[j])
      invariant WaitSeen(lines, times, started, i, wait)
      invariant last == LastKind(lines[..i])
    {
      end := i;
      assert lines[..i + 1][..i] == lines[..i];
      match lines[i] {
        case Other =>
        case Undecodable =>
        case NoObject =>
          raised := true;
          return;
        case Event(kind) =>
          last := Some(kind);
          if kind == "RUN_STARTED" && wait.None? {
            assert StartsFirstAt(lines, i);
            wait := Some((times[i] - started) * 1000.0);
          } else if kind == "RUN_FINISHED" || kind == "RUN_ERROR" {
            terminal := Some(kind);
            return;
          }
      }
    }
    end := |lines|;
    assert lines[..|lines|] == lines;
  }

  // -- How a request ends --

  // With a measurement (and in worker mode a wait), with an error, or with an exception nobody
  // catches.
  datatype Outcome = Success(latency: real, wait: Option<real>) | Failed(failure: Failure) | Escape

  function FirstStop(lines: seq<Line>): (i: nat)
    ensures i <= |lines|
  {
    if lines == [] || Stops(lines[0]) then 0 else 1 + FirstStop(lines[1..])
  }

  function FirstStart(lines: seq<Line>): (i: nat)
    ensures i <= |lines|
  {
    if lines == [] || lines[0] == Event("RUN_STARTED") then 0 else 1 + FirstStart(lines[1..])
  }

  lemma {:induction false} FirstStopIs(lines: seq<Line>, i: nat)
    ensures StopsFirstAt(lines, i) <==> i < |lines| && FirstStop(lines) == i
  {
    if lines == [] || Stops(lines[0]) {
      return;
    }
    assert lines == [lines[0]] + lines[1..];
    if i == 0 {
    } else {
      FirstStopIs(lines[1..], i - 1);
      assert forall j :: 1 <= j < |lines| ==> lines[j] == lines[1..][j - 1];
    }
  }

  lemma {:induction false} FirstStartIs(lines: seq<Line>, i: nat)
    ensures StartsFirstAt(lines, i) <==> i < |lines| && FirstStart(lines) == i
    ensures forall j :: 0 <= j < FirstStart(lines) ==> lines[j] != Event("RUN_STARTED")
  {
    if lines == [] || lines[0] == Event("RUN_STARTED") {
      return;
    }
    FirstStartIs(lines[1..], if i > 0 then i - 1 else 0);
    assert forall j :: 1 <= j < |lines| ==> lines[j] == lines[1..][j - 1];
  }

  // The measured wait in milliseconds, given where the stream ended.
  function WaitOf(x: Observed): real
  {
    var i := FirstStart(x.lines);
    if i < FirstStop(x.lines) then (x.times[i] - x.started) * 1000.0 else (x.finished - x.started) * 1000.0
  }

  ghost function WorkerOutcome(x: Observed): Outcome
  {
    if Escapes(x) then Escape
    else if Finishes(x) then Success((x.finished - x.started) * 1000.0, Some(WaitOf(x)))
    else Failed(FailureOf(x))
  }

  lemma WorkerOutcomeIs(x: Observed)
    ensures WorkerOutcome(x).Escape? <==> Escapes(x)
    ensures !Escapes(x) ==>
      WorkerOutcome(x) == if Finishes(x) then Success((x.finished - x.started) * 1000.0, Some(WaitOf(x))) else Outcome.Failed(FailureOf(x))
  {
  }

  predicate Streams(x: Exchange) {
    x.creation.Created? && x.opening.Closed? && (x.status == 200 || x.status == 201)
  }

  // What becomes of a request that reads no stream.
  lemma EarlyOutcome(x: Observed)
    requires !Streams(x)
    ensures WorkerOutcome(x) ==
      if x.creation.CreationHttpError? then Outcome.Failed(ThreadFailed)
      else if x.creation.CreationUncaught? || x.opening.Uncaught? then Escape
      else if x.opening.HttpError? then Outcome.Failed(TransportFailed)
      else if x.ending.Uncaught? then Escape
      else if x.ending.HttpError? then Outcome.Failed(TransportFailed)
      else Outcome.Failed(BadStatus(x.status))
  {
  }

  // What becomes of one whose stream stops at a line: a value that is no object, or a terminal event.
  lemma StoppedOutcome(x: Observed, end: nat)
    requires Streams(x) && StopsFirstAt(x.lines, end)
    ensures WorkerOutcome(x) ==
      if x.lines[end].NoObject? then Escape
      else if x.lines[end] == Event("RUN_FINISHED") then Success((x.finished - x.started) * 1000.0, Some(WaitOf(x)))
      else Outcome.Failed(StreamEnded(Some("RUN_ERROR"), Some("RUN_ERROR")))
  {
    hide WaitOf, LastKind;
    StopsOnce(x.lines);
  }

  lemma EndlessOutcome(x: Observed)
    requires Streams(x) && NeverStops(x.lines)
    ensures WorkerOutcome(x) ==
      if x.ending.Uncaught? then Escape
      else if x.ending.HttpError? then Outcome.Failed(TransportFailed)
      else Outcome.Failed(StreamEnded(None, LastKind(x.lines)))
  {
    hide WaitOf, LastKind;
  }

  lemma SeenWait(x: Observed, end: nat, wait: Option<real>)
    requires StopsFirstAt(x.lines, end) && WaitSeen(x.lines, x.times, x.started, end, wait)
    ensures WaitOf(x) == if wait.Some? then wait.value else (x.finished - x.started) * 1000.0
  {
    FirstStopIs(x.lines, end);
    FirstStartIs(x.lines, FirstStart(x.lines));
    if wait.Some? {
      var j: nat :| j < end && StartsFirstAt(x.lines, j) && wait.value == (x.times[j] - x.started) * 1000.0;
      FirstStartIs(x.lines, j);
    }
  }

  // The wait recorded is the wait meant, and at most the latency.
  lemma WaitIsMeant(x: Observed)
    requires Timed(x) && Finishes(x)
    ensures IsWait(x, WaitOf(x)) && 0.0 <= WaitOf(x) <= (x.finished - x.started) * 1000.0
  {
    var end: nat :| StopsFirstAt(x.lines, end) && x.lines[end] == Event("RUN_FINISHED");
    var start := FirstStart(x.lines);
    FirstStopIs(x.lines, end);
    FirstStartIs(x.lines, start);
    if start < end {
      assert StartsFirstAt(x.lines, start);
    }
  }

  // `_one_inline_request`: the HTTP library raised, or a response came whose body, looked at
  // only on status 200, is no JSON object or has a `success` that is true or not.
  datatype InlineReply = Raised | Response(status: int, success: Option<bool>)

  function InlineOutcome(reply: InlineReply, started: real, answered: real): Outcome {
    if reply.Raised? then Failed(TransportFailed)
    else if reply.status != 200 then Failed(BadStatus(reply.status))
    else if reply.success.None? then Escape
    else if reply.success.value then Success((answered - started) * 1000.0, None)
    else Failed(BadStatus(200))
  }

  // The three shared lists, and what a request appends to them as it ends.
  datatype Lists = Lists(latencies: seq<real>, waits: seq<real>, errors: seq<Error>)

  function Append(lists: Lists, index: nat, outcome: Outcome): Lists {
    match outcome
    case Success(latency, wait) =>
      lists.(latencies := lists.latencies + [latency], waits := lists.waits + if wait.Some? then [wait.value] else [])
    case Failed(failure) => lists.(errors := lists.errors + [Error(index, failure)])
    case Escape => lists
  }

  class Sample {
    var latencies: seq<real>
    var waits: seq<real>
    var errors: seq<Error>

    constructor ()
      ensures latencies == [] && waits == [] && errors == []
    {
      latencies, waits, errors := [], [], [];
    }

    ghost function Contents(): Lists
      reads this
    {
      Lists(latencies, waits, errors)
    }

    method Fail(index: nat, failure: Failure)
      modifies this
      ensures Contents() == Append(old(Contents()), index, Outcome.Failed(failure))
    {
      errors := errors + [Error(index, failure)];
    }

    // `_one_worker_request`
    method OneWorkerRequest(index: nat, x: Observed) returns (escaped: bool)
      modifies this
      ensures Contents() == Append(old(Contents()), index, WorkerOutcome(x)) && (escaped <==> WorkerOutcome(x).Escape?)
      ensures escaped <==> Escapes(x)
      ensures escaped ==> latencies == old(latencies) && waits == old(waits) && errors == old(errors)
      ensures !escaped && Finishes(x) ==>
        latencies == old(latencies) + [(x.finished - x.started) * 1000.0] && waits == old(waits) + [WaitOf(x)] && errors == old(errors)
      ensures !escaped && !Finishes(x) ==>
        latencies == old(latencies) && waits == old(waits) && errors == old(errors) + [Error(index, FailureOf(x))]
    {
      WorkerOutcomeIs(x);
      hide WorkerOutcome, WaitOf, LastKind, FailureOf, Escapes, Finishes;
      if !Streams(x) {
        EarlyOutcome(x);
      }
      escaped := false;
      match x.creation {
        case Created =>
        case CreationHttpError => Fail(index, ThreadFailed); return;
        case CreationUncaught => return true;
      }
      match x.opening {
        case Closed =>
        case HttpError => Fail(index, TransportFailed); return;
        case Uncaught => return true;
      }
      if x.status != 200 && x.status != 201 {
        match x.ending {
          case Closed => Fail(index, BadStatus(x.status)); return;
          case HttpError => Fail(index, TransportFailed); return;
          case Uncaught => return true;
        }
      }
      var wait, terminal, last, raised, end := ReadStream(x.lines, x.times, x.started);
      if raised || terminal.Some? {
        StoppedOutcome(x, end);
      } else {
        EndlessOutcome(x);
      }
      if raised { return true; }
      if terminal.None? {
        match x.ending {
          case Closed =>
          case HttpError => Fail(index, TransportFailed); return;
          case Uncaught => return true;
        }
      }
      var elapsed := (x.finished - x.started) * 1000.0;
      if terminal == Some("RUN_FINISHED") {
        SeenWait(x, end, wait);
        latencies := latencies + [elapsed];
        waits := waits + [if wait.Some? then wait.value else elapsed];
      } else {
        Fail(index, StreamEnded(terminal, last));
      }
    }

    // `_one_inline_request`
    method OneInlineRequest(index: nat, reply: InlineReply, started: real, answered: real) returns (escaped: bool)
      modifies this
      ensures Contents() == Append(old(Contents()), index, InlineOutcome(reply, started, answered))
      ensures escaped <==> reply.Response? && reply.status == 200 && reply.success.None?
      ensures escaped ==> latencies == old(latencies) && errors == old(errors)
      ensures reply == Response(200, Some(true)) ==> latencies == old(latencies) + [(answered - started) * 1000.0] && errors == old(errors)
      ensures reply == Response(200, Some(false)) ==> latencies == old(latencies) && errors == old(errors) + [Error(index, BadStatus(200))]
      ensures reply.Response? && reply.status != 200 ==>
        latencies == old(latencies) && errors == old(errors) + [Error(index, BadStatus(reply.status))]
      ensures reply.Raised? ==> latencies == old(latencies) && errors == old(errors) + [Error(index, TransportFailed)]
      ensures waits == old(waits)
    {
      escaped := false;
      match reply {
        case Raised => Fail(index, TransportFailed);
        case Response(status, success) =>
          var elapsed := (answered - started) * 1000.0;
          if status == 200 && success.None? {
            return true;
          }
          if status == 200 && success.value {
            latencies := latencies + [elapsed];
          } else {
            Fail(index, BadStatus(status));
          }
      }
    }
  }
}
