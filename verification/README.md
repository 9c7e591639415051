# dummy-node-app v3: request handler model

The v3 dummy Node application is an HTTP server used to exercise liveness
probes and restart policies. At startup it fixes a flag `shouldFail`: the flag is
true when the process was given at least one command-line argument. It keeps a
request counter `count` that starts at 0. In failure mode every request
increments the counter. Once the counter exceeds 5, the request is answered
with status 500. Otherwise the answer is status 200.

The model strips the HTTP server away:

- `Handler` (handler.dfy) holds the state `State(shouldFail, count)` and the
  startup function `Init(argv)`. It also holds the pure one-request transition
  `Step(state) -> (state', status)`. `Handle` is an imperative mirror of the
  JavaScript handler: it records the code of each `writeHead` call and returns
  early from the error branch. `Serve` collects those codes.
- `Requests` (requests.dfy) runs the handler over `n` consecutive requests.
  `Run` gives the statuses of such a run and `After` gives the state at its
  end. `Serve` is the same run written as a loop over `Handle`. The module also holds the
  closed form of the n-th response, the lemma that a run splits at any point,
  and the lemmas that the counter and the Healthy to Failing transition are
  monotone.

Requests are a sequence because Node's event loop runs one handler call at a
time.

## Model

| member | source | states |
|---|---|---|
| Handler.Status.Code | apps/dummy-node-app/v3/app.js:15-21 | the error status is written as code 500 and the success status as code 200, and no other status maps to either code |
| Handler.Init | apps/dummy-node-app/v3/app.js:4-5 | a fresh process has counter 0 and is not failing; failure mode is on iff there is at least one argument after the runtime and script paths |
| Handler.Step | apps/dummy-node-app/v3/app.js:12-23 | one request never changes the failure flag; it increments the counter exactly when in failure mode; the status is 500 iff the post-increment counter is above 5 in failure mode, and 200 otherwise; without failure mode the state is untouched |
| Handler.FailingIsStable | apps/dummy-node-app/v3/app.js:13-17 | once the counter is above the threshold in failure mode, every further request keeps it there and gets a 500 |
| Handler.HealthyToFailing | apps/dummy-node-app/v3/app.js:13-14 | from a healthy state, a request makes the process failing exactly when the counter stood at the threshold (5) |
| Handler.Handle | apps/dummy-node-app/v3/app.js:9-24 | the handler makes exactly one `writeHead` call per request, because the 500 branch returns before the 200 write; the code written is the code of `Step`'s status, it is 500 iff the new state is failing, and the new state agrees with `Step` |
| Requests.Run | apps/dummy-node-app/v3/app.js:9-26 | a run of n requests yields exactly n statuses, one per request |
| Requests.After | apps/dummy-node-app/v3/app.js:4-13 | after n requests the flag is unchanged and the counter has grown by n in failure mode and by 0 otherwise |
| Requests.RunMatchesExpected | apps/dummy-node-app/v3/app.js:12-23 | the i-th status of any run equals the reference definition: 500 iff in failure mode and the starting counter plus i+1 exceeds 5 |
| Requests.RunSplits | apps/dummy-node-app/v3/app.js:4 | a run of m+n requests is the run of the first m followed by the run of n from the state those m left behind, so the counter is the only memory between requests |
| Requests.CountNeverDecreases | apps/dummy-node-app/v3/app.js:13 | the counter never decreases along a run, and without failure mode the state never changes |
| Requests.DefaultModeAlwaysOk | apps/dummy-node-app/v3/app.js:12-21 | without failure mode every request of every run gets a 200 and the state stays the same |
| Requests.FreshRunClosedForm | apps/dummy-node-app/v3/app.js:4-15 | for a fresh process, the k-th request (from 1) gets a 200 iff failure mode is off or k is at most 5, and gets a 500 otherwise |
| Requests.FreshFailingAfter | apps/dummy-node-app/v3/app.js:4-14 | a fresh process is failing after n requests iff it has a user argument and n is above 5 |
| Requests.FailureIsPermanent | apps/dummy-node-app/v3/app.js:13-17 | once a run has produced a 500, every later response in it is a 500; a 200 is only ever preceded by 200s |
| Requests.Serve | apps/dummy-node-app/v3/app.js:9-26 | serving n requests one at a time with the handler writes exactly n status codes, in order, each the code of the reference status and of the matching `Run` status, and leaves the state `After` predicts |

## Left out

- The HTTP server (`http.createServer(...).listen(8080)`) and the calls `res.writeHead` and `res.end` are I/O. A response is modelled only by its status and the code passed to `writeHead`.
- The response bodies and `os.hostname()` are left out. The host name is an operating-system call and the body wording is cosmetic.
- The two `console.log` lines are left out: one logs the failure flag at startup, the other logs the remote address per request. They are output side effects only.
- Concurrency is left out. Node's event loop runs one handler call at a time, so a run is a sequence of requests.
- The counter is an unbounded `nat` rather than a JavaScript number. Precision loss near 2^53 is out of reach in practice, and it would not change the `> 5` outcome.
- Restarting the process is not a separate operation: a restart is a new `Init`, which sets the counter back to 0.
- dummy-node-app/app.js is the stateless server at the repository root; it always answers 200. Its behaviour is the `shouldFail = false` case of the v3 handler, so it has no model of its own.
