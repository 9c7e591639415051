/**
 A run of the server: the handler applied to requests one after another, as
 Node's event loop serialises them. `Run` gives the statuses of a run and
 `After` the handler state at its end; the lemmas give the closed form of the
 n-th response and the one-way Healthy to Failing transition.
 */
module Requests {
  import opened Handler

  /** The statuses of `n` consecutive requests, starting in state `s`. */
  function Run(s: State, n: nat): (r: seq<Status>)
    ensures |r| == n
    decreases n
  {
    if n == 0 then []
    else [Step(s).1] + Run(Step(s).0, n - 1)
  }

  /** The handler state after `n` consecutive requests, starting in state `s`. */
  function After(s: State, n: nat): (t: State)
    ensures t.shouldFail == s.shouldFail
    ensures t.count == s.count + (if s.shouldFail then n else 0)
    decreases n
  {
    if n == 0 then s
    else After(Step(s).0, n - 1)
  }

  /**
   Reference definition: the status of the request that arrives when `prior`
   requests have already been handled from state `s`.
   */
  function Expected(s: State, prior: nat): Status {
    if s.shouldFail && s.count + prior + 1 > Threshold then InternalServerError else Ok
  }

  /**
   Reference definition for a fresh process: the status of the `k`-th request
   (counting from 1) after startup with failure mode `shouldFail`.
   */
  function NthResponse(shouldFail: bool, k: nat): Status
    requires k >= 1
  {
    if shouldFail && k > Threshold then InternalServerError else Ok
  }

  /** Every response of a run is the one the reference definition predicts. */
  lemma {:induction false} RunMatchesExpected(s: State, n: nat)
    ensures forall i :: 0 <= i < n ==> Run(s, n)[i] == Expected(s, i)
    decreases n
  {
    if n > 0 {
      RunMatchesExpected(Step(s).0, n - 1);
      forall i | 0 <= i < n
        ensures Run(s, n)[i] == Expected(s, i)
      {
        if i > 0 {
          assert Run(s, n)[i] == Run(Step(s).0, n - 1)[i - 1];
        }
      }
    }
  }

  /** A run splits into a prefix and the run that continues from its end state. */
  lemma {:induction false} RunSplits(s: State, m: nat, n: nat)
    ensures Run(s, m + n) == Run(s, m) + Run(After(s, m), n)
    decreases m
  {
    if m > 0 {
      RunSplits(Step(s).0, m - 1, n);
      assert Run(s, m + n) == [Step(s).1] + Run(Step(s).0, (m - 1) + n);
    }
  }

  /** The counter never decreases along a run, and moves only in failure mode. */
  lemma CountNeverDecreases(s: State, m: nat, n: nat)
    requires m <= n
    ensures After(s, m).count <= After(s, n).count
    ensures !s.shouldFail ==> After(s, n) == s
  {
  }

  /** Without failure mode every request gets a 200 and the state never changes. */
  lemma {:induction false} DefaultModeAlwaysOk(s: State, n: nat)
    requires !s.shouldFail
    ensures forall i :: 0 <= i < n ==> Run(s, n)[i] == Ok
    ensures After(s, n) == s
  {
    RunMatchesExpected(s, n);
  }

  /**
   Closed form from startup: the `k`-th response of a fresh process is a 200
   exactly when failure mode is off or `k` is at most the threshold.
   */
  lemma FreshRunClosedForm(argv: seq<string>, n: nat)
    ensures forall i :: 0 <= i < n ==> Run(Init(argv), n)[i] == NthResponse(UserArgs(argv) != [], i + 1)
    ensures forall i :: 0 <= i < n ==>
              (Run(Init(argv), n)[i] == Ok <==> UserArgs(argv) == [] || i + 1 <= Threshold)
  {
    RunMatchesExpected(Init(argv), n);
  }

  /**
   A fresh process in failure mode is failing exactly once it has handled more
   than the threshold number of requests; without failure mode it never is.
   */
  lemma FreshFailingAfter(argv: seq<string>, n: nat)
    ensures Failing(After(Init(argv), n)) <==> UserArgs(argv) != [] && n > Threshold
  {
  }

  /** Once a run has produced a 500, every later response in it is a 500. */
  lemma {:induction false} FailureIsPermanent(s: State, n: nat)
    ensures forall i, j :: 0 <= i <= j < n && Run(s, n)[i] == InternalServerError ==>
              Run(s, n)[j] == InternalServerError
    ensures forall i, j :: 0 <= i <= j < n && Run(s, n)[j] == Ok ==> Run(s, n)[i] == Ok
  {
    RunMatchesExpected(s, n);
  }

  /**
   The server handling `n` requests one at a time: the status codes it
   writes, in order, and the handler state it is left in.
   */
  method Serve(s: State, n: nat) returns (codes: seq<nat>, last: State)
    ensures |codes| == n
    ensures forall i :: 0 <= i < n ==> codes[i] == Expected(s, i).Code()
    ensures forall i :: 0 <= i < n ==> codes[i] == Run(s, n)[i].Code()
    ensures last.shouldFail == s.shouldFail
    ensures last.count == s.count + (if s.shouldFail then n else 0)
    ensures last == After(s, n)
  {
    codes := [];
    last := s;
    var handled := 0;
    while handled < n
      invariant handled <= n
      invariant |codes| == handled
      invariant forall i :: 0 <= i < handled ==> codes[i] == Expected(s, i).Code()
      invariant last.shouldFail == s.shouldFail
      invariant last.count == s.count + (if s.shouldFail then handled else 0)
    {
      var written;
      last, written := Handle(last);
      codes := codes + written;
      handled := handled + 1;
    }
    RunMatchesExpected(s, n);
  }
}
