/**
 * The retry loop the three proxy routes share (app/api/cognitive-questions,
 * app/api/exam-score and app/api/eye-tracking): at most three `fetch`
 * attempts, a 2xx or 4xx response ends the loop, a 5xx (or any other
 * non-ok status) or a thrown error is retried after `1000 * 2^retryCount`
 * milliseconds, and the last response received is what the route answers from.
 *
 * The network is the sequence of what each attempt would yield; the waits are
 * reported instead of slept.
 */
module Retry {
  import opened Wrappers
  import opened Http

  /** `maxRetries`: the number of attempts. */
  const MaxRetries: nat := 3

  function Pow2(k: nat): nat {
    if k == 0 then 1 else 2 * Pow2(k - 1)
  }

  /** `1000 * Math.pow(2, retryCount)` milliseconds. */
  function Backoff(retryCount: nat): nat {
    1000 * Pow2(retryCount)
  }

  /** The waits after the first `n` failed attempts: 2000, 4000, ... */
  function Waits(n: nat): (w: seq<nat>)
    ensures |w| == n
    ensures forall i :: 0 <= i < n ==> w[i] == Backoff(i + 1)
  {
    if n == 0 then [] else Waits(n - 1) + [Backoff(n)]
  }

  /** An attempt that ends the loop: a response that is ok or a client error. */
  predicate Stops(o: Fetched) {
    o.Received? && (IsOk(o.response.status) || 400 <= o.response.status < 500)
  }

  /** What one run of the loop did: how many attempts, which waits, which response it kept. */
  datatype RetryRun = RetryRun(attempts: nat, waits: seq<nat>, last: Option<Response>)

  /** A route's answer, with the run of its retry loop when it reached the backend at all. */
  datatype Handled = Handled(reply: Reply, run: Option<RetryRun>)

  /** The first attempt at or after `k` (among the first `MaxRetries`) that ends the loop. */
  function FirstStopFrom(outcomes: seq<Fetched>, k: nat): (r: Option<nat>)
    requires |outcomes| >= MaxRetries
    ensures r.Some? ==> k <= r.value < MaxRetries && Stops(outcomes[r.value])
    decreases MaxRetries - k
  {
    if k >= MaxRetries then None
    else if Stops(outcomes[k]) then Some(k)
    else FirstStopFrom(outcomes, k + 1)
  }

  /** The last response received among `attempted`, if any attempt got one. */
  function LastReceived(attempted: seq<Fetched>): (r: Option<Response>)
    ensures r.Some? ==> exists i :: 0 <= i < |attempted| && attempted[i] == Received(r.value)
  {
    if attempted == [] then None
    else if attempted[|attempted| - 1].Received? then Some(attempted[|attempted| - 1].response)
    else LastReceived(attempted[..|attempted| - 1])
  }

  /**
   * The policy, stated without the loop: the attempts run up to the first one
   * that ends the loop, or all three; every failed attempt but the third is
   * followed by its backoff; the kept response is the last one received.
   */
  function Policy(outcomes: seq<Fetched>): (r: RetryRun)
    requires |outcomes| >= MaxRetries
    ensures 1 <= r.attempts <= MaxRetries && |r.waits| == r.attempts - 1
    ensures r.last.Some? ==> exists i :: 0 <= i < r.attempts && outcomes[i] == Received(r.last.value)
  {
    var stop := FirstStopFrom(outcomes, 0);
    var attempts := if stop.Some? then stop.value + 1 else MaxRetries;
    var failures := if stop.Some? then stop.value else MaxRetries;
    RetryRun(attempts, Waits(if failures < MaxRetries then failures else MaxRetries - 1),
             LastReceived(outcomes[..attempts]))
  }

  lemma {:induction false} FirstStopAt(outcomes: seq<Fetched>, k: nat, j: nat)
    requires |outcomes| >= MaxRetries
    requires k <= j < MaxRetries && Stops(outcomes[j])
    requires forall i :: k <= i < j ==> !Stops(outcomes[i])
    ensures FirstStopFrom(outcomes, k) == Some(j)
    decreases j - k
  {
    if k < j {
      FirstStopAt(outcomes, k + 1, j);
    }
  }

  lemma {:induction false} NoStopFrom(outcomes: seq<Fetched>, k: nat)
    requires |outcomes| >= MaxRetries
    requires forall i :: k <= i < MaxRetries ==> !Stops(outcomes[i])
    ensures FirstStopFrom(outcomes, k) == None
    decreases MaxRetries - k
  {
    if k < MaxRetries {
      NoStopFrom(outcomes, k + 1);
    }
  }

  /** The loop of the three routes, statement for statement; it runs as `Policy` says. */
  method RetryLoop(outcomes: seq<Fetched>) returns (run: RetryRun)
    requires |outcomes| >= MaxRetries
    ensures run == Policy(outcomes)
  {
    var retryCount: nat := 0;
    var backendResponse: Option<Response> := None;
    var waits: seq<nat> := [];
    var attempts: nat := 0;
    var stopped := false;
    while retryCount < MaxRetries
      invariant attempts == retryCount <= MaxRetries
      invariant forall i :: 0 <= i < attempts ==> !Stops(outcomes[i])
      invariant backendResponse == LastReceived(outcomes[..attempts])
      invariant waits == Waits(if retryCount < MaxRetries then retryCount else MaxRetries - 1)
    {
      var outcome := outcomes[retryCount];
      assert outcomes[..attempts + 1][..attempts] == outcomes[..attempts];
      attempts := attempts + 1;
      match outcome {
        case Received(response) =>
          backendResponse := Some(response);
          if IsOk(response.status) {
            stopped := true;
            break;
          }
          if 400 <= response.status < 500 {
            stopped := true;
            break;
          }
          retryCount := retryCount + 1;
          if retryCount < MaxRetries {
            waits := waits + [Backoff(retryCount)];
          }
        case NetworkError(_) =>
          retryCount := retryCount + 1;
          if retryCount < MaxRetries {
            waits := waits + [Backoff(retryCount)];
          }
      }
    }
    if stopped {
      FirstStopAt(outcomes, 0, retryCount);
    } else {
      NoStopFrom(outcomes, 0);
    }
    run := RetryRun(attempts, waits, backendResponse);
  }

  /**
   * What the policy promises: one to three attempts; a wait after every attempt
   * but the last, 2000 ms and then 4000 ms; the loop ends early only on a 2xx or
   * 4xx response, and every attempt before the last was a 5xx or a thrown error.
   */
  lemma PolicyShape(outcomes: seq<Fetched>)
    requires |outcomes| >= MaxRetries
    ensures var run := Policy(outcomes);
      && 1 <= run.attempts <= MaxRetries
      && |run.waits| == run.attempts - 1
      && (forall i :: 0 <= i < |run.waits| ==> run.waits[i] == 2000 * Pow2(i))
      && (run.attempts < MaxRetries ==> Stops(outcomes[run.attempts - 1]))
      && (forall i :: 0 <= i < run.attempts - 1 ==> !Stops(outcomes[i]))
  {
    var stop := FirstStopFrom(outcomes, 0);
    if stop.Some? {
      FirstStopMinimal(outcomes, 0);
    } else {
      NoStopMeansNone(outcomes, 0);
    }
  }

  lemma {:induction false} FirstStopMinimal(outcomes: seq<Fetched>, k: nat)
    requires |outcomes| >= MaxRetries
    requires FirstStopFrom(outcomes, k).Some?
    ensures forall i :: k <= i < FirstStopFrom(outcomes, k).value ==> !Stops(outcomes[i])
    decreases MaxRetries - k
  {
    if !Stops(outcomes[k]) {
      FirstStopMinimal(outcomes, k + 1);
    }
  }

  lemma {:induction false} NoStopMeansNone(outcomes: seq<Fetched>, k: nat)
    requires |outcomes| >= MaxRetries
    requires FirstStopFrom(outcomes, k).None?
    ensures forall i :: k <= i < MaxRetries ==> !Stops(outcomes[i])
    decreases MaxRetries - k
  {
    if k < MaxRetries {
      NoStopMeansNone(outcomes, k + 1);
    }
  }

  lemma {:induction false} LastReceivedNone(attempted: seq<Fetched>)
    ensures LastReceived(attempted).None? <==> forall i :: 0 <= i < |attempted| ==> attempted[i].NetworkError?
  {
    if attempted != [] {
      var init := attempted[..|attempted| - 1];
      LastReceivedNone(init);
      assert forall i :: 0 <= i < |init| ==> init[i] == attempted[i];
    }
  }

  /**
   * The route falls back to "service unavailable" exactly when every attempt
   * threw; that takes all three attempts.
   */
  lemma NoResponseIffAllThrew(outcomes: seq<Fetched>)
    requires |outcomes| >= MaxRetries
    ensures Policy(outcomes).last.None? <==>
      forall i :: 0 <= i < MaxRetries ==> outcomes[i].NetworkError?
    ensures Policy(outcomes).last.None? ==> Policy(outcomes).attempts == MaxRetries
  {
    var run := Policy(outcomes);
    PolicyShape(outcomes);
    LastReceivedNone(outcomes[..run.attempts]);
    if forall i :: 0 <= i < MaxRetries ==> outcomes[i].NetworkError? {
      NoStopFrom(outcomes, 0);
    }
  }

  /** The kept response is that of the latest attempt that received one: no later attempt did. */
  lemma {:induction false} LastReceivedIsLatest(attempted: seq<Fetched>)
    requires LastReceived(attempted).Some?
    ensures exists i :: 0 <= i < |attempted| && attempted[i] == Received(LastReceived(attempted).value) &&
                        (forall j :: i < j < |attempted| ==> attempted[j].NetworkError?)
  {
    var n := |attempted|;
    if !attempted[n - 1].Received? {
      var init := attempted[..n - 1];
      LastReceivedIsLatest(init);
      var i :| 0 <= i < |init| && init[i] == Received(LastReceived(init).value)
        && forall j :: i < j < |init| ==> init[j].NetworkError?;
      assert attempted[i] == init[i];
      assert forall j :: i < j < n ==> attempted[j].NetworkError? by {
        forall j | i < j < n ensures attempted[j].NetworkError? {
          if j < n - 1 { assert attempted[j] == init[j]; }
        }
      }
    }
  }

  /** Two server errors and then a success: three attempts after waiting 2000 ms and 4000 ms. */
  lemma TwoServerErrorsThenSuccess(r500: Response, r200: Response)
    requires r500.status == 500 && r200.status == 200
    ensures Policy([Received(r500), Received(r500), Received(r200)])
      == RetryRun(3, [2000, 4000], Some(r200))
  {
  }

  /** A 404 on the first attempt ends the loop at once, without a wait. */
  lemma NotFoundIsNotRetried(r404: Response, rest: seq<Fetched>)
    requires r404.status == 404 && |rest| >= 2
    ensures Policy([Received(r404)] + rest) == RetryRun(1, [], Some(r404))
  {
  }

  /** Three thrown errors: three attempts, both waits, nothing received. */
  lemma ThreeNetworkErrors(m1: string, m2: string, m3: string)
    ensures Policy([NetworkError(m1), NetworkError(m2), NetworkError(m3)])
      == RetryRun(3, [2000, 4000], None)
  {
  }
}
