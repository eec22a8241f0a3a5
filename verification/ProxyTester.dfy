/**
 * One health check of one proxy (`testProxy`). The network exchange and the
 * clock are replaced by the outcome they produce: the elapsed time of a
 * response that arrived, or the kind of error that was raised.
 */
module ProxyTester {
  import opened Interfaces

  /** What a single test request through the proxy came to. */
  datatype ProbeOutcome =
    | Response(status: nat, elapsedMs: nat)  // a response arrived after elapsedMs
    | AgentError                             // building the proxy agent threw
    | RequestError                           // connection error, timeout, rejected status

  /** Only a response with status exactly 200 counts as a pass; any other
      status is thrown inside the `try` and lands in the `catch`. */
  predicate Passed(o: ProbeOutcome) {
    o.Response? && o.status == 200
  }

  /** The two fields a probe writes. */
  datatype Health = Health(latency: Latency, failures: nat)

  function HealthOf(p: Proxy): Health
    reads p`latency, p`failures
  {
    Health(p.latency, p.failures)
  }

  /** The state transition of one probe. The latency is finite, and the
      counter is 0, exactly after a pass; otherwise the counter grows by one,
      so it never decreases except by the reset. */
  function Probe(h: Health, o: ProbeOutcome): (r: Health)
    ensures Passed(o) <==> r.latency.Finite?
    ensures Passed(o) <==> r.failures == 0
    ensures !Passed(o) ==> r.failures == h.failures + 1
  {
    if Passed(o) then Health(Finite(o.elapsedMs), 0)
    else Health(Unknown, h.failures + 1)
  }

  /** `testProxy`: writes the probe's result into the shared record. It has
      no error result: every failure ends in the catch block, which only
      updates the counters (and logs). */
  method TestProxy(proxy: Proxy, outcome: ProbeOutcome)
    modifies proxy`latency, proxy`failures
    ensures HealthOf(proxy) == Probe(old(HealthOf(proxy)), outcome)
    ensures Passed(outcome) ==> proxy.latency == Finite(outcome.elapsedMs) && proxy.failures == 0
    ensures !Passed(outcome) ==> proxy.latency == Unknown && proxy.failures == old(proxy.failures) + 1
  {
    if Passed(outcome) {
      proxy.latency := Finite(outcome.elapsedMs);
      proxy.failures := 0;
    } else {
      proxy.failures := proxy.failures + 1;
      proxy.latency := Unknown;
    }
  }

  /** The health after a series of probes, oldest outcome first. */
  function AfterProbes(h: Health, os: seq<ProbeOutcome>): Health
  {
    if os == [] then h else Probe(AfterProbes(h, os[..|os| - 1]), os[|os| - 1])
  }

  /** Whether any outcome of the series passed. */
  predicate AnyPassed(os: seq<ProbeOutcome>) {
    exists i :: 0 <= i < |os| && Passed(os[i])
  }

  /** Failed probes since the last pass (all of them if none passed). */
  function FailuresSinceLastPass(os: seq<ProbeOutcome>): (n: nat)
    ensures n <= |os|
  {
    if os == [] || Passed(os[|os| - 1]) then 0
    else 1 + FailuresSinceLastPass(os[..|os| - 1])
  }

  /** After any series of probes, the counter holds the failures since the
      last pass, plus the starting count when nothing passed; the latency is
      finite exactly when the last probe passed, and is then its measurement:
      a failure never leaves a stale latency behind. */
  lemma {:induction false} HistoryHealth(h: Health, os: seq<ProbeOutcome>)
    ensures AfterProbes(h, os).failures
         == FailuresSinceLastPass(os) + (if AnyPassed(os) then 0 else h.failures)
    ensures os != [] ==>
      AfterProbes(h, os).latency
        == (if Passed(os[|os| - 1]) then Finite(os[|os| - 1].elapsedMs) else Unknown)
  {
    if os != [] {
      var init := os[..|os| - 1];
      HistoryHealth(h, init);
      if !Passed(os[|os| - 1]) {
        assert AnyPassed(os) ==> AnyPassed(init) by {
          if AnyPassed(os) {
            var i :| 0 <= i < |os| && Passed(os[i]);
            assert i < |os| - 1 && init[i] == os[i];
          }
        }
        assert AnyPassed(init) ==> AnyPassed(os) by {
          if AnyPassed(init) {
            var i :| 0 <= i < |init| && Passed(init[i]);
            assert os[i] == init[i];
          }
        }
      } else {
        assert AnyPassed(os);
      }
    }
  }

  /** A record that starts fresh is eligible under threshold `maxFailures`
      exactly when fewer than `maxFailures` probes failed since its last
      pass (counting from the start when none passed). */
  lemma EligibleAfterHistory(os: seq<ProbeOutcome>, maxFailures: nat)
    ensures AfterProbes(Health(Unknown, 0), os).failures < maxFailures
        <==> FailuresSinceLastPass(os) < maxFailures
  {
    HistoryHealth(Health(Unknown, 0), os);
  }
}
