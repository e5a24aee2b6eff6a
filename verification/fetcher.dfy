/**
  The fetcher of the website monitor: up to `retries` GET attempts for one URL,
  an exponentially growing sleep after every failed attempt, and a keyword check
  on the first response obtained.

  The network is abstracted as `net`, the outcome of the attempt with 0-based
  index i; the HTML-to-text extraction is the uninterpreted parameter `extract`.
  Sleeps are not performed but recorded, in the order they are requested.
 */
module Fetcher {
  import opened Text

  /** What one GET attempt yields: an `aiohttp.ClientError` (a connection
      failure, or a status of 400 or above rejected by `raise_for_status`), or a
      response body. Any other status, an unfollowed redirect included, is a
      response. */
  datatype Attempt = TransportError | Response(body: string)

  /** The `(found, content)` pair a fetch returns to the monitoring loop. */
  datatype Outcome = Outcome(found: bool, content: string)

  /** A whole fetch: its outcome, how many attempts it made, and the sleep
      durations (in seconds) it requested, in order. The backoff factor may be
      fractional, so durations are reals. */
  datatype FetchRun = FetchRun(outcome: Outcome, attempts: nat, sleeps: seq<real>)

  /** The outcome when every attempt failed at the transport level. */
  const Exhausted := Outcome(false, "")

  function Max0(n: int): nat {
    if n < 0 then 0 else n
  }

  function Pow2(n: nat): nat {
    if n == 0 then 1 else 2 * Pow2(n - 1)
  }

  /** The sleep requested after the failed attempt with 0-based index `attempt`:
      the backoff factor, doubled once per earlier attempt. */
  function Delay(backoff: real, attempt: nat): real {
    if attempt == 0 then backoff else 2.0 * Delay(backoff, attempt - 1)
  }

  /** The delay after attempt `i` is `backoff * 2^i`, the expression the fetcher sleeps for. */
  lemma {:induction false} DelayIsGeometric(backoff: real, attempt: nat)
    ensures Delay(backoff, attempt) == backoff * Pow2(attempt) as real
  {
    if attempt > 0 {
      DelayIsGeometric(backoff, attempt - 1);
    }
  }

  /** The geometric delay schedule for `n` failed attempts, built one delay at a time. */
  function Schedule(backoff: real, n: nat): (r: seq<real>)
    ensures |r| == n
    ensures forall i :: 0 <= i < n ==> r[i] == Delay(backoff, i)
  {
    if n == 0 then [] else Schedule(backoff, n - 1) + [Delay(backoff, n - 1)]
  }

  function Sum(s: seq<real>): real {
    if |s| == 0 then 0.0 else Sum(s[..|s| - 1]) + s[|s| - 1]
  }

  /** The delays after `n` failed attempts add up to one less backoff than the
      next delay would be. */
  lemma {:induction false} ScheduleSum(backoff: real, n: nat)
    ensures Sum(Schedule(backoff, n)) == Delay(backoff, n) - backoff
  {
    if n > 0 {
      var prev, last := Schedule(backoff, n - 1), Delay(backoff, n - 1);
      var s := prev + [last];
      assert s[..n - 1] == prev;
      ScheduleSum(backoff, n - 1);
      assert Sum(s) == Sum(prev) + last;
    }
  }

  /** The delays after `n` failed attempts add up to `backoff * (2^n - 1)`. */
  lemma ScheduleTotal(backoff: real, n: nat)
    ensures Sum(Schedule(backoff, n)) == backoff * (Pow2(n) as real - 1.0)
  {
    ScheduleSum(backoff, n);
    DelayIsGeometric(backoff, n);
  }

  /** The keyword check on a response: search the extracted text, but hand back
      the raw body as the content. */
  function Check(body: string, extract: string -> string, keyword: string): (o: Outcome)
    ensures o.content == body
    ensures o.found <==> IsSubstring(keyword, extract(body))
  {
    ContainsIsSubstring(extract(body), keyword);
    Outcome(Contains(extract(body), keyword), body)
  }

  /** The retry loop from attempt index `attempt` on: one iteration of
      `for attempt in range(retries)`. The result counts only the attempts and
      sleeps from `attempt` on. */
  function Loop(net: nat -> Attempt, extract: string -> string, keyword: string,
                retries: int, backoff: real, attempt: nat): (r: FetchRun)
    ensures r.attempts <= Max0(retries - attempt)
    ensures |r.sleeps| <= r.attempts <= |r.sleeps| + 1
    ensures forall j :: attempt <= j < attempt + |r.sleeps| ==>
              net(j) == TransportError && r.sleeps[j - attempt] == Delay(backoff, j)
    ensures r.attempts == |r.sleeps| ==>
              r.outcome == Exhausted && r.attempts == Max0(retries - attempt)
    ensures r.attempts == |r.sleeps| + 1 ==>
              net(attempt + |r.sleeps|).Response? &&
              r.outcome == Check(net(attempt + |r.sleeps|).body, extract, keyword)
    decreases retries - attempt
  {
    if retries <= attempt then
      FetchRun(Exhausted, 0, [])
    else
      match net(attempt)
      case Response(body) =>
        FetchRun(Check(body, extract, keyword), 1, [])
      case TransportError =>
        var rest := Loop(net, extract, keyword, retries, backoff, attempt + 1);
        FetchRun(rest.outcome, rest.attempts + 1, [Delay(backoff, attempt)] + rest.sleeps)
  }

  /** `fetch(session, url, keyword)`: at most `retries` attempts; the first
      response ends the loop; every failed attempt, the last one included, is
      followed by a sleep of `backoff * 2^attempt`. */
  function Fetch(net: nat -> Attempt, extract: string -> string, keyword: string,
                 retries: int, backoff: real): (r: FetchRun)
    ensures r.attempts <= Max0(retries)
    ensures |r.sleeps| <= r.attempts <= |r.sleeps| + 1
    ensures forall j :: 0 <= j < |r.sleeps| ==>
              net(j) == TransportError && r.sleeps[j] == Delay(backoff, j)
    ensures r.attempts == |r.sleeps| ==> r.outcome == Exhausted && r.attempts == Max0(retries)
    ensures r.attempts == |r.sleeps| + 1 ==>
              net(|r.sleeps|).Response? &&
              r.outcome.content == net(|r.sleeps|).body &&
              (r.outcome.found <==> IsSubstring(keyword, extract(r.outcome.content)))
  {
    Loop(net, extract, keyword, retries, backoff, 0)
  }

  /** With no retries configured there is no attempt at all. */
  lemma FetchWithoutRetries(net: nat -> Attempt, extract: string -> string, keyword: string,
                            retries: int, backoff: real)
    requires retries <= 0
    ensures Fetch(net, extract, keyword, retries, backoff) == FetchRun(Exhausted, 0, [])
  {
  }

  /** If every attempt fails, the fetch makes exactly `retries` attempts, sleeps
      after each of them on the geometric schedule, and reports `(False, "")`. */
  lemma {:induction false} FetchAllFail(net: nat -> Attempt, extract: string -> string, keyword: string,
                                        retries: int, backoff: real)
    requires forall i: nat :: i < retries ==> net(i) == TransportError
    ensures Fetch(net, extract, keyword, retries, backoff)
            == FetchRun(Exhausted, Max0(retries), Schedule(backoff, Max0(retries)))
    ensures Sum(Fetch(net, extract, keyword, retries, backoff).sleeps)
            == backoff * (Pow2(Max0(retries)) as real - 1.0)
  {
    var n := Max0(retries);
    ScheduleTotal(backoff, n);
    AllFailSleeps(net, extract, keyword, retries, backoff);
  }

  /** The run part of `FetchAllFail`: one sleep per attempt, on the schedule. */
  lemma AllFailSleeps(net: nat -> Attempt, extract: string -> string, keyword: string,
                      retries: int, backoff: real)
    requires forall i: nat :: i < retries ==> net(i) == TransportError
    ensures Fetch(net, extract, keyword, retries, backoff)
            == FetchRun(Exhausted, Max0(retries), Schedule(backoff, Max0(retries)))
  {
    var r := Fetch(net, extract, keyword, retries, backoff);
    var n := Max0(retries);
    assert r.attempts == |r.sleeps|;
    assert |r.sleeps| == n;
    var sched := Schedule(backoff, n);
    forall i | 0 <= i < n
      ensures r.sleeps[i] == sched[i]
    {
    }
    assert r.sleeps == sched;
  }

  /** The first response ends the fetch, whether or not the keyword is present:
      `k + 1` attempts, the `k` sleeps for the failures before it, and the
      outcome of checking that response. */
  lemma {:induction false} FetchStopsAtFirstResponse(net: nat -> Attempt, extract: string -> string,
                                                     keyword: string, retries: int, backoff: real, k: nat)
    requires k < retries
    requires net(k).Response?
    requires forall i: nat :: i < k ==> net(i) == TransportError
    ensures Fetch(net, extract, keyword, retries, backoff)
            == FetchRun(Check(net(k).body, extract, keyword), k + 1, Schedule(backoff, k))
  {
    var r := Fetch(net, extract, keyword, retries, backoff);
    assert |r.sleeps| == k;
    assert r.sleeps == Schedule(backoff, k);
  }

  /** The retry loop from `attempt` on reads the network only at the attempts it
      makes: two networks that agree there give the same run. */
  lemma {:induction false} LoopConsultsOnlyItsAttempts(net1: nat -> Attempt, net2: nat -> Attempt,
                                                       extract: string -> string, keyword: string,
                                                       retries: int, backoff: real, attempt: nat)
    requires forall i: nat :: attempt <= i < attempt + Loop(net1, extract, keyword, retries, backoff, attempt).attempts ==>
               net1(i) == net2(i)
    ensures Loop(net1, extract, keyword, retries, backoff, attempt)
            == Loop(net2, extract, keyword, retries, backoff, attempt)
    decreases retries - attempt
  {
    if attempt < retries {
      var r1 := Loop(net1, extract, keyword, retries, backoff, attempt);
      assert r1.attempts >= 1;
      assert net1(attempt) == net2(attempt);
      if net1(attempt) == TransportError {
        var rest1 := Loop(net1, extract, keyword, retries, backoff, attempt + 1);
        assert r1.attempts == rest1.attempts + 1;
        LoopConsultsOnlyItsAttempts(net1, net2, extract, keyword, retries, backoff, attempt + 1);
        var rest2 := Loop(net2, extract, keyword, retries, backoff, attempt + 1);
        assert rest1 == rest2;
        assert r1 == FetchRun(rest1.outcome, rest1.attempts + 1, [Delay(backoff, attempt)] + rest1.sleeps);
      }
    }
  }

  /** Only the attempts a fetch actually made matter: two networks that agree on
      them give the same fetch. In particular nothing after the first response
      is ever consulted. */
  lemma FetchConsultsOnlyItsAttempts(net1: nat -> Attempt, net2: nat -> Attempt,
                                     extract: string -> string, keyword: string,
                                     retries: int, backoff: real)
    requires forall i: nat :: i < Fetch(net1, extract, keyword, retries, backoff).attempts ==>
               net1(i) == net2(i)
    ensures Fetch(net1, extract, keyword, retries, backoff)
            == Fetch(net2, extract, keyword, retries, backoff)
  {
    LoopConsultsOnlyItsAttempts(net1, net2, extract, keyword, retries, backoff, 0);
  }
}
