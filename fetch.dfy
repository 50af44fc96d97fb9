/** The deadline-bounded retry loop of `FetchTrafficInfo`. The wall clock and the HTTP
    transport are inputs: a trace of steps, each the clock reading taken by the loop
    guard and the outcome `http.Get` would have if asked at that moment. */
module Fetch {
  import opened Wrappers
  import opened Traffic

  /** `http.StatusOK`. */
  const StatusOK := 200

  /** `timeout`, ten seconds, in nanoseconds as Go's `time.Duration`. */
  const Timeout := 10_000_000_000

  /** The result of decoding a 200 response body (the JSON decoder is not modelled). */
  datatype Body = Decodable(response: DistanceMatrixResponse) | Undecodable

  datatype Attempt =
    | TransportError                           // `http.Get` returned an error
    | HttpResponse(statusCode: int, body: Body)

  /** One pass of the loop: the clock reading of the guard, then what the attempt yields. */
  datatype Step = Step(clock: int, attempt: Attempt)

  datatype FetchError = FetchTimeout | DecodeError

  predicate IsOK(a: Attempt)
  {
    a.HttpResponse? && a.statusCode == StatusOK
  }

  /** The loop ends at this step: the deadline has come, or the attempt got a 200. */
  predicate Stops(s: Step, deadline: int)
  {
    !(s.clock < deadline) || IsOK(s.attempt)
  }

  /** The environment's clock reaches the deadline within the trace. */
  predicate ReachesDeadline(steps: seq<Step>, deadline: int)
  {
    |steps| > 0 && steps[|steps| - 1].clock >= deadline
  }

  /** The first step, from `from` on, at which the loop ends. */
  function StopIndex(steps: seq<Step>, deadline: int, from: nat): (k: nat)
    requires from < |steps| && ReachesDeadline(steps, deadline)
    ensures from <= k < |steps| && Stops(steps[k], deadline)
    ensures forall j :: from <= j < k ==> !Stops(steps[j], deadline)
    decreases |steps| - from
  {
    if Stops(steps[from], deadline) then from else StopIndex(steps, deadline, from + 1)
  }

  /** What the loop returns at the step where it ends. */
  function Settle(s: Step, deadline: int): (r: (DistanceMatrixResponse, Option<FetchError>))
    requires Stops(s, deadline)
    ensures r.1 == Some(FetchTimeout) <==> !(s.clock < deadline)
    ensures r.1 == Some(DecodeError) <==> s.clock < deadline && s.attempt.body.Undecodable?
    ensures r.1 == None <==> s.clock < deadline && s.attempt.body.Decodable?
    ensures r.1 == None ==> r.0 == s.attempt.body.response
    ensures r.1.Some? ==> r.0 == EmptyResponse
  {
    if !(s.clock < deadline) then (EmptyResponse, Some(FetchTimeout))
    else match s.attempt.body
      case Undecodable => (EmptyResponse, Some(DecodeError))
      case Decodable(response) => (response, None)
  }

  /** The pair `FetchTrafficInfo` returns for a trace. */
  function Outcome(steps: seq<Step>, deadline: int): (r: (DistanceMatrixResponse, Option<FetchError>))
    requires ReachesDeadline(steps, deadline)
    ensures r.1.Some? ==> r.0 == EmptyResponse
  {
    Settle(steps[StopIndex(steps, deadline, 0)], deadline)
  }

  /** How many GET requests the loop issues on a trace. */
  function AttemptCount(steps: seq<Step>, deadline: int): (n: nat)
    requires ReachesDeadline(steps, deadline)
    ensures n <= |steps|
    ensures forall j :: 0 <= j < n ==> steps[j].clock < deadline
  {
    var k := StopIndex(steps, deadline, 0);
    if steps[k].clock < deadline then k + 1 else k
  }

  /** `FetchTrafficInfo(apiKey)`, with the globals `origin` and `destination` as parameters
      and `start` the clock reading from which the deadline is computed. `requests` lists
      the URLs fetched, one per attempt. */
  method FetchTrafficInfo(apiKey: string, origin: string, destination: string,
                          start: int, steps: seq<Step>)
    returns (response: DistanceMatrixResponse, err: Option<FetchError>, requests: seq<string>)
    requires ReachesDeadline(steps, start + Timeout)
    ensures (response, err) == Outcome(steps, start + Timeout)
    ensures |requests| == AttemptCount(steps, start + Timeout)
    ensures forall i :: 0 <= i < |requests| ==>
      requests[i] == RequestURL(apiKey, origin, destination) && steps[i].clock < start + Timeout
  {
    var url := RequestURL(apiKey, origin, destination);
    var deadline := start + Timeout;
    ghost var k := StopIndex(steps, deadline, 0);
    var i := 0;
    requests := [];
    while steps[i].clock < deadline
      invariant i <= k
      invariant forall j :: 0 <= j < i ==> !Stops(steps[j], deadline)
      invariant |requests| == i
      invariant forall j :: 0 <= j < i ==> requests[j] == url
      decreases |steps| - i
    {
      var attempt := steps[i].attempt;
      requests := requests + [url];
      if attempt.TransportError? {
        i := i + 1;
        continue;
      }
      if attempt.statusCode == StatusOK {
        match attempt.body
        case Undecodable =>
          return EmptyResponse, Some(DecodeError), requests;
        case Decodable(decoded) =>
          return decoded, None, requests;
      }
      i := i + 1;
    }
    return EmptyResponse, Some(FetchTimeout), requests;
  }

  /** A transport that never answers 200 makes the loop run until the deadline and
      return the timeout error with the empty record. */
  lemma {:induction false} NeverOKTimesOut(steps: seq<Step>, deadline: int)
    requires ReachesDeadline(steps, deadline)
    requires forall j :: 0 <= j < |steps| ==> !IsOK(steps[j].attempt)
    ensures Outcome(steps, deadline) == (EmptyResponse, Some(FetchTimeout))
    ensures steps[StopIndex(steps, deadline, 0)].clock >= deadline
    ensures forall j :: 0 <= j < AttemptCount(steps, deadline) ==> steps[j].clock < deadline
  {
  }

  /** Transport errors and non-200 answers never end the loop: dropping such a step taken
      before the deadline leaves the outcome unchanged (only the request count moves). */
  lemma {:induction false} RetryIsTransparent(s: Step, steps: seq<Step>, deadline: int)
    requires ReachesDeadline(steps, deadline)
    requires s.clock < deadline && !IsOK(s.attempt)
    ensures Outcome([s] + steps, deadline) == Outcome(steps, deadline)
    ensures AttemptCount([s] + steps, deadline) == AttemptCount(steps, deadline) + 1
  {
    var all := [s] + steps;
    assert ReachesDeadline(all, deadline);
    ShiftStopIndex(s, steps, deadline, 0);
  }

  lemma {:induction false} ShiftStopIndex(s: Step, steps: seq<Step>, deadline: int, from: nat)
    requires ReachesDeadline(steps, deadline) && from < |steps|
    requires s.clock < deadline && !IsOK(s.attempt)
    ensures ReachesDeadline([s] + steps, deadline)
    ensures StopIndex([s] + steps, deadline, from + 1) == StopIndex(steps, deadline, from) + 1
    ensures StopIndex([s] + steps, deadline, 0) == StopIndex([s] + steps, deadline, 1)
    decreases |steps| - from
  {
    var all := [s] + steps;
    assert all[from + 1] == steps[from];
    assert all[0] == s;
    if !Stops(steps[from], deadline) {
      ShiftStopIndex(s, steps, deadline, from + 1);
    }
  }

  /** A 200 answer with a decodable body before the deadline ends the loop with that record
      and no further request; with an undecodable body it ends with the decode error. */
  lemma {:induction false} OKEndsTheLoop(s: Step, rest: seq<Step>, deadline: int)
    requires s.clock < deadline && IsOK(s.attempt)
    requires ReachesDeadline([s] + rest, deadline)
    ensures AttemptCount([s] + rest, deadline) == 1
    ensures Outcome([s] + rest, deadline) ==
      match s.attempt.body
      case Decodable(response) => (response, None)
      case Undecodable => (EmptyResponse, Some(DecodeError))
  {
    assert ([s] + rest)[0] == s;
  }

  /** The retry-then-success trace: a transport error, then a 500, then a 200 with a body,
      all before the deadline, give that body after three requests. */
  lemma {:induction false} RetryThenSuccess(t0: int, t1: int, t2: int, later: seq<Step>, deadline: int,
                         response: DistanceMatrixResponse, errorBody: Body)
    requires t0 < deadline && t1 < deadline && t2 < deadline
    requires ReachesDeadline(later, deadline)
    ensures var steps := [Step(t0, TransportError), Step(t1, HttpResponse(500, errorBody)),
                          Step(t2, HttpResponse(StatusOK, Decodable(response)))] + later;
      && Outcome(steps, deadline) == (response, None)
      && AttemptCount(steps, deadline) == 3
  {
    var ok := Step(t2, HttpResponse(StatusOK, Decodable(response)));
    var s2 := [ok] + later;
    var s1 := [Step(t1, HttpResponse(500, errorBody))] + s2;
    var s0 := [Step(t0, TransportError)] + s1;
    OKEndsTheLoop(ok, later, deadline);
    RetryIsTransparent(Step(t1, HttpResponse(500, errorBody)), s2, deadline);
    RetryIsTransparent(Step(t0, TransportError), s1, deadline);
    assert s0 == [Step(t0, TransportError), Step(t1, HttpResponse(500, errorBody)), ok] + later;
  }
}
