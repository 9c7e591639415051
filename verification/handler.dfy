/**
 The request handler of the v3 dummy application: a fixed failure flag chosen
 at startup, a request counter, and the per-request decision between a
 success (200) and a simulated internal error (500).

 The HTTP server, the host name in the response body and the log lines are
 not modelled; a request is reduced to one transition of the handler state.
 */
module Handler {

  /** Number of counted requests that still succeed in failure mode. */
  const Threshold: nat := 5

  /** The status the handler writes with `writeHead`. */
  datatype Status = Ok | InternalServerError {

    /** The numeric HTTP status code passed to `writeHead`; distinct statuses get distinct codes. */
    function Code(): (c: nat)
      ensures c == 200 <==> this == Ok
      ensures c == 500 <==> this == InternalServerError
    {
      match this
      case Ok => 200
      case InternalServerError => 500
    }
  }

  /** Process-wide state: the flag set once at startup and the request counter. */
  datatype State = State(shouldFail: bool, count: nat)

  /** Degrading mode, before the threshold has been exceeded. */
  predicate Healthy(s: State) {
    s.shouldFail && s.count <= Threshold
  }

  /** Degrading mode, after the threshold has been exceeded. */
  predicate Failing(s: State) {
    s.shouldFail && s.count > Threshold
  }

  /** The arguments given after the runtime path and the script path. */
  function UserArgs(argv: seq<string>): seq<string> {
    if |argv| <= 2 then [] else argv[2..]
  }

  /**
   The state at process start. `argv` is the full argument vector as Node
   sees it: the runtime path and the script path come first, so failure mode
   is on exactly when at least one user argument follows them. The values of
   the arguments play no part.
   */
  function Init(argv: seq<string>): (s: State)
    ensures s.count == 0
    ensures s.shouldFail <==> UserArgs(argv) != []
    ensures !Failing(s)
  {
    State(|argv| > 2, 0)
  }

  /**
   One call of the handler: the state afterwards and the single status
   written. In failure mode the counter is incremented first and the new
   value is compared against the threshold.
   */
  function Step(s: State): (r: (State, Status))
    ensures r.0.shouldFail == s.shouldFail
    ensures r.0.count == s.count + (if s.shouldFail then 1 else 0)
    ensures !s.shouldFail ==> r.0 == s && r.1 == Ok
    ensures r.1 == InternalServerError <==> Failing(r.0)
  {
    if s.shouldFail then
      var count := s.count + 1;
      if count > Threshold then
        (State(s.shouldFail, count), InternalServerError)
      else
        (State(s.shouldFail, count), Ok)
    else
      (s, Ok)
  }

  /** Once failing, a request keeps the state failing and gets a 500. */
  lemma FailingIsStable(s: State)
    requires Failing(s)
    ensures Failing(Step(s).0)
    ensures Step(s).1 == InternalServerError
  {
  }

  /**
   The Healthy to Failing transition happens on exactly the request that
   takes the counter from the threshold to one past it.
   */
  lemma HealthyToFailing(s: State)
    requires Healthy(s)
    ensures Failing(Step(s).0) <==> s.count == Threshold
    ensures Healthy(Step(s).0) <==> s.count < Threshold
  {
  }

  /**
   The handler written the way the server runs it: it records the code of
   each `writeHead` call in `written`, and the error branch returns early
   instead of falling through to the success write.
   */
  method Handle(s: State) returns (next: State, written: seq<nat>)
    ensures |written| == 1
    ensures next == Step(s).0
    ensures written == [Step(s).1.Code()]
    ensures written[0] == 500 <==> Failing(next)
  {
    written := [];
    var count := s.count;
    if s.shouldFail {
      count := count + 1;
      if count > Threshold {
        written := written + [500];
        next := State(s.shouldFail, count);
        return;
      }
    }
    written := written + [200];
    next := State(s.shouldFail, count);
  }
}
