/** Workers sharing the domain breaker: each asks, performs its request, and records the outcome, while the others
    do the same in between. The clock never runs backwards.
 */
module BreakerProtocol {
  import opened Collections
  import opened CircuitBreaker

  /** One atomic act of one worker. */
  datatype Act = Ask(worker: nat, domain: string, now: int) | Record(worker: nat, ok: bool, now: int)

  /** The breaker's table, the domain each busy worker has a request in flight to, and the latest time seen. */
  datatype System = System(domains: map<string, Circuit>, inFlight: map<nat, string>, clock: int)

  /** What the protocol lets happen next, with `workers` workers. */
  predicate Enabled(s: System, a: Act, workers: nat) {
    && a.worker < workers && s.clock <= a.now
    && match a
       case Ask(w, _, _) => w !in s.inFlight
       case Record(w, _, _) => w in s.inFlight
  }

  predicate Admits(s: System, a: Act) {
    a.Ask? && Grants(CircuitOf(s.domains, a.domain), a.now)
  }

  /** The breaker call an act makes. */
  function EventOf(s: System, a: Act): Event
    requires a.Record? ==> a.worker in s.inFlight
  {
    match a
    case Ask(_, d, now) => Asked(d, now)
    case Record(w, ok, now) => if ok then Succeeded(s.inFlight[w]) else Failed(s.inFlight[w], now)
  }

  function Next(s: System, a: Act): System
    requires a.Record? ==> a.worker in s.inFlight
  {
    System(
      DomainStep(s.domains, EventOf(s, a)),
      if Admits(s, a) then s.inFlight[a.worker := a.domain]
      else if a.Record? then s.inFlight - {a.worker}
      else s.inFlight,
      a.now)
  }

  /** A run: consecutive systems, each reached from the one before by the act between. */
  ghost predicate IsRun(ss: seq<System>, acts: seq<Act>, workers: nat) {
    && |ss| == |acts| + 1
    && (forall w :: w in ss[0].inFlight ==> w < workers)
    && forall i :: 0 <= i < |acts| ==> Enabled(ss[i], acts[i], workers) && ss[i + 1] == Next(ss[i], acts[i])
  }

  /** The act records a successful request to the domain. */
  predicate Succeeds(s: System, a: Act, domain: string) {
    a.Record? && a.ok && a.worker in s.inFlight && s.inFlight[a.worker] == domain
  }

  /** No request to the domain is recorded as a success from `i` up to `n`. */
  ghost predicate NoSuccess(ss: seq<System>, acts: seq<Act>, domain: string, i: nat, n: nat)
    requires |ss| == |acts| + 1 && n <= |acts|
  {
    forall k :: i <= k < n ==> !Succeeds(ss[k], acts[k], domain)
  }

  /** The workers busy with a domain. */
  function Busy(s: System, domain: string): set<nat> {
    set w | w in s.inFlight && s.inFlight[w] == domain
  }

  /** Requests to the domain admitted through its closed circuit from the start of the run up to `n`. */
  function Admitted(ss: seq<System>, acts: seq<Act>, domain: string, n: nat): nat
    requires |ss| == |acts| + 1 && n <= |acts|
  {
    if n == 0 then 0
    else
      Admitted(ss, acts, domain, n - 1)
      + if Admits(ss[n - 1], acts[n - 1]) && acts[n - 1].domain == domain
           && CircuitOf(ss[n - 1].domains, domain).state == Closed then 1 else 0
  }

  // ----- one act

  /** How many workers one act leaves busy with a domain. */
  lemma BusyAfter(s: System, a: Act, workers: nat, domain: string)
    requires Enabled(s, a, workers)
    ensures |Busy(Next(s, a), domain)| == |Busy(s, domain)|
              + (if Admits(s, a) && a.domain == domain then 1 else 0)
              - (if a.Record? && s.inFlight[a.worker] == domain then 1 else 0)
  {
    hide DomainStep, Grants, CircuitOf;
    assert Admits(s, a) ==> a.Ask?;
    hide Admits;
    if Admits(s, a) && a.domain == domain {
      BusyGains(s, Next(s, a), a.worker, domain);
    } else if a.Record? && s.inFlight[a.worker] == domain {
      BusyLoses(s, Next(s, a), a.worker, domain);
    } else {
      assert Busy(Next(s, a), domain) == Busy(s, domain);
    }
  }

  lemma BusyGains(s: System, next: System, w: nat, domain: string)
    requires w !in s.inFlight && next.inFlight == s.inFlight[w := domain]
    ensures |Busy(next, domain)| == |Busy(s, domain)| + 1
  {
    assert Busy(next, domain) == Busy(s, domain) + {w};
  }

  lemma BusyLoses(s: System, next: System, w: nat, domain: string)
    requires w in s.inFlight && s.inFlight[w] == domain && next.inFlight == s.inFlight - {w}
    ensures |Busy(next, domain)| == |Busy(s, domain)| - 1
  {
    assert Busy(next, domain) == Busy(s, domain) - {w};
  }

  lemma {:induction false} BelowSize(s: set<nat>, n: nat)
    requires forall w :: w in s ==> w < n
    ensures |s| <= n
  {
    if n == 0 {
      assert s == {};
    } else {
      BelowSize(s - {n - 1}, n - 1);
      assert |s| <= |s - {n - 1}| + 1;
    }
  }

  lemma {:induction false} WorkersStayInRange(ss: seq<System>, acts: seq<Act>, workers: nat, n: nat)
    requires IsRun(ss, acts, workers) && n <= |acts|
    ensures forall w :: w in ss[n].inFlight ==> w < workers
  {
    hide Grants, DomainStep, CircuitOf;
    if n > 0 {
      WorkersStayInRange(ss, acts, workers, n - 1);
      assert ss[n] == Next(ss[n - 1], acts[n - 1]);
    }
  }

  lemma BusyBound(ss: seq<System>, acts: seq<Act>, workers: nat, n: nat, domain: string)
    requires IsRun(ss, acts, workers) && n <= |acts|
    ensures |Busy(ss[n], domain)| <= workers
    ensures n < |acts| && acts[n].Record? && ss[n].inFlight[acts[n].worker] == domain ==>
              |Busy(ss[n + 1], domain)| <= workers - 1
  {
    hide Next;
    WorkersStayInRange(ss, acts, workers, n);
    BelowSize(Busy(ss[n], domain), workers);
    if n < |acts| {
      BusyAfter(ss[n], acts[n], workers, domain);
    }
  }

  lemma CircuitAfter(s: System, a: Act, workers: nat, domain: string)
    requires Enabled(s, a, workers)
    ensures var c := CircuitOf(s.domains, domain);
            CircuitOf(Next(s, a).domains, domain) ==
            if a.Ask? && a.domain == domain then AfterAllow(c, a.now)
            else if a.Record? && s.inFlight[a.worker] == domain then
              if a.ok then AfterSuccess(c) else AfterFailure(c, a.now)
            else c
  {
  }

  // ----- the admission bound

  /** While the circuit is closed and nothing succeeds, every admitted request is either a recorded failure or still
      in flight; once it has opened the count stands still. */
  lemma {:induction false} AdmissionsAccounted(ss: seq<System>, acts: seq<Act>, workers: nat, domain: string, n: nat)
    requires IsRun(ss, acts, workers) && n <= |acts| && NoSuccess(ss, acts, domain, 0, n)
    requires var c := CircuitOf(ss[0].domains, domain); c.state == Closed && Consistent(c)
    ensures var c0, c := CircuitOf(ss[0].domains, domain), CircuitOf(ss[n].domains, domain);
            && Consistent(c)
            && (c.state == Closed ==> Admitted(ss, acts, domain, n) + c0.failures + |Busy(ss[0], domain)|
                                      == c.failures + |Busy(ss[n], domain)|)
            && (c.state != Closed ==> Admitted(ss, acts, domain, n) + c0.failures + |Busy(ss[0], domain)|
                                      <= THRESHOLD - 1 + workers)
  {
    hide Next, Grants, DomainStep, CircuitOf, Busy, Enabled;
    if n > 0 {
      AdmissionsAccounted(ss, acts, workers, domain, n - 1);
      var s, a := ss[n - 1], acts[n - 1];
      EnabledRecord(s, a, workers);
      assert ss[n] == Next(s, a) && !Succeeds(s, a, domain);
      BusyAfter(s, a, workers, domain);
      BusyBound(ss, acts, workers, n - 1, domain);
      CircuitAfter(s, a, workers, domain);
    }
  }

  lemma EnabledRecord(s: System, a: Act, workers: nat)
    requires Enabled(s, a, workers)
    ensures a.Record? ==> a.worker in s.inFlight
  {
  }

  /** With W workers, a success-free run from a closed circuit that already counts f failures and has m requests in
      flight admits at most threshold - 1 - f + W - m requests through the closed circuit: from a fresh circuit
      nobody is using, threshold - 1 + W. Every other admission is a probe. */
  lemma AdmissionBound(ss: seq<System>, acts: seq<Act>, workers: nat, domain: string)
    requires IsRun(ss, acts, workers) && NoSuccess(ss, acts, domain, 0, |acts|)
    requires var c := CircuitOf(ss[0].domains, domain); c.state == Closed && Consistent(c)
    ensures Admitted(ss, acts, domain, |acts|) + CircuitOf(ss[0].domains, domain).failures + |Busy(ss[0], domain)|
            <= THRESHOLD - 1 + workers
    ensures forall k :: 0 <= k < |acts| && Admits(ss[k], acts[k]) && acts[k].domain == domain
                        && CircuitOf(ss[k].domains, domain).state != Closed ==>
              IsProbe(ss[k], acts[k], domain)
  {
    AdmissionsAccounted(ss, acts, workers, domain, |acts|);
    BusyBound(ss, acts, workers, |acts|, domain);
  }

  lemma {:induction false} AdmittedExtends(ss: seq<System>, acts: seq<Act>, s: System, a: Act, domain: string, n: nat)
    requires |ss| == |acts| + 1 && n <= |acts|
    ensures Admitted(ss + [s], acts + [a], domain, n) == Admitted(ss, acts, domain, n)
  {
    hide Admits, CircuitOf;
    if n > 0 {
      AdmittedExtends(ss, acts, s, a, domain, n - 1);
    }
  }

  /** A success-free run grows by an enabled act that records no success. */
  lemma RunExtends(ss: seq<System>, acts: seq<Act>, a: Act, workers: nat, domain: string)
    requires IsRun(ss, acts, workers) && NoSuccess(ss, acts, domain, 0, |acts|)
    requires Enabled(ss[|acts|], a, workers) && (a.Record? ==> !a.ok)
    ensures var more, all := ss + [Next(ss[|acts|], a)], acts + [a];
            && IsRun(more, all, workers) && NoSuccess(more, all, domain, 0, |all|)
            && Admitted(more, all, domain, |all|) == Admitted(ss, acts, domain, |acts|)
                 + if Admits(ss[|acts|], a) && a.domain == domain
                     && CircuitOf(ss[|acts|].domains, domain).state == Closed
                   then 1 else 0
  {
    EnabledRecord(ss[|acts|], a, workers);
    hide Admits, CircuitOf, DomainStep, Enabled, Next, Admitted;
    var more, all := ss + [Next(ss[|acts|], a)], acts + [a];
    assert forall k :: 0 <= k < |acts| ==> all[k] == acts[k] && more[k] == ss[k];
    AdmittedExtends(ss, acts, Next(ss[|acts|], a), a, domain, |acts|);
    AdmittedUnfolds(more, all, domain);
  }

  lemma AdmittedUnfolds(ss: seq<System>, acts: seq<Act>, domain: string)
    requires |ss| == |acts| + 1 && acts != []
    ensures var n := |acts| - 1;
            Admitted(ss, acts, domain, n + 1) == Admitted(ss, acts, domain, n)
              + if Admits(ss[n], acts[n]) && acts[n].domain == domain
                  && CircuitOf(ss[n].domains, domain).state == Closed
                then 1 else 0
  {
  }

  const IDLE := System(map[], map[], 0)

  /** The bound is reached: some success-free run from a fresh, idle breaker admits threshold - 1 + W requests. */
  lemma BoundIsReached(workers: nat, domain: string) returns (ss: seq<System>, acts: seq<Act>)
    requires workers > 0
    ensures IsRun(ss, acts, workers) && ss[0] == IDLE && NoSuccess(ss, acts, domain, 0, |acts|)
    ensures Admitted(ss, acts, domain, |acts|) == THRESHOLD - 1 + workers
  {
    hide IsRun, NoSuccess, Admitted;
    ss, acts := FailureByFailure(workers, domain, THRESHOLD - 1);
    for w := 0 to workers
      invariant IsRun(ss, acts, workers) && |ss| == |acts| + 1 && ss[0] == IDLE
                && NoSuccess(ss, acts, domain, 0, |acts|)
      invariant Admitted(ss, acts, domain, |acts|) == THRESHOLD - 1 + w
      invariant CircuitOf(ss[|acts|].domains, domain).state == Closed && ss[|acts|].clock == 0
      invariant forall x :: x in ss[|acts|].inFlight ==> x < w
    {
      var a := Ask(w, domain, 0);
      RunExtends(ss, acts, a, workers, domain);
      CircuitAfter(ss[|acts|], a, workers, domain);
      ss, acts := ss + [Next(ss[|acts|], a)], acts + [a];
    }
  }

  /** One worker alone failing `n` times, below the threshold. */
  lemma {:induction false} FailureByFailure(workers: nat, domain: string, n: nat)
    returns (ss: seq<System>, acts: seq<Act>)
    requires workers > 0 && n < THRESHOLD
    ensures IsRun(ss, acts, workers) && |ss| == |acts| + 1 && ss[0] == IDLE && NoSuccess(ss, acts, domain, 0, |acts|)
    ensures Admitted(ss, acts, domain, |acts|) == n
    ensures CircuitOf(ss[|acts|].domains, domain).state == Closed && CircuitOf(ss[|acts|].domains, domain).failures == n
    ensures ss[|acts|].inFlight == map[] && ss[|acts|].clock == 0
  {
    if n == 0 {
      ss, acts := [IDLE], [];
    } else {
      ss, acts := FailureByFailure(workers, domain, n - 1);
      hide IsRun, NoSuccess, Admitted;
      var ask, fail := Ask(0, domain, 0), Record(0, false, 0);
      RunExtends(ss, acts, ask, workers, domain);
      CircuitAfter(ss[|acts|], ask, workers, domain);
      ss, acts := ss + [Next(ss[|acts|], ask)], acts + [ask];
      RunExtends(ss, acts, fail, workers, domain);
      CircuitAfter(ss[|acts|], fail, workers, domain);
      ss, acts := ss + [Next(ss[|acts|], fail)], acts + [fail];
      assert ss[|acts|].inFlight == map[];
    }
  }

  // ----- probes

  /** The act is admitted although the circuit is open: the one probe a cooldown allows. */
  predicate IsProbe(s: System, a: Act, domain: string) {
    Admits(s, a) && a.domain == domain && CircuitOf(s.domains, domain).state == Open
  }

  /** Between a probe and the next success the circuit is never closed, and when open it opened no earlier than the
      probe -- even when it is a straggler's failure, not the probe's, that reopens it. */
  lemma {:induction false} AfterProbe(ss: seq<System>, acts: seq<Act>, workers: nat, domain: string, i: nat, n: nat)
    requires IsRun(ss, acts, workers) && i < n <= |acts| && IsProbe(ss[i], acts[i], domain)
    requires NoSuccess(ss, acts, domain, i, n)
    ensures var c := CircuitOf(ss[n].domains, domain);
            && c.state != Closed && (c.state == Open ==> c.openedAt >= acts[i].now) && ss[n].clock >= acts[i].now
  {
    hide CircuitOf, DomainStep, Busy;
    CircuitAfter(ss[n - 1], acts[n - 1], workers, domain);
    assert ss[n] == Next(ss[n - 1], acts[n - 1]) && ss[n].clock == acts[n - 1].now;
    if n > i + 1 {
      AfterProbe(ss, acts, workers, domain, i, n - 1);
      assert !Succeeds(ss[n - 1], acts[n - 1], domain);
    }
  }

  /** After a probe and until a success, every admission is a probe, at least one cooldown after the one before. */
  lemma ProbesAreSpaced(ss: seq<System>, acts: seq<Act>, workers: nat, domain: string, i: nat, j: nat)
    requires IsRun(ss, acts, workers) && i < j < |acts| && NoSuccess(ss, acts, domain, i, j)
    requires IsProbe(ss[i], acts[i], domain)
    requires Admits(ss[j], acts[j]) && acts[j].domain == domain
    ensures IsProbe(ss[j], acts[j], domain) && acts[j].now - acts[i].now >= COOLDOWN
  {
    AfterProbe(ss, acts, workers, domain, i, j);
  }

  /** A success-free run with one more act. */
  lemma Extended(ss: seq<System>, acts: seq<Act>, a: Act, workers: nat, domain: string)
    returns (more: seq<System>, all: seq<Act>)
    requires IsRun(ss, acts, workers) && |ss| == |acts| + 1 && NoSuccess(ss, acts, domain, 0, |acts|)
    requires Enabled(ss[|acts|], a, workers) && (a.Record? ==> !a.ok)
    ensures all == acts + [a] && more == ss + [Next(ss[|acts|], a)]
    ensures IsRun(more, all, workers) && |more| == |all| + 1 && NoSuccess(more, all, domain, 0, |all|)
  {
    RunExtends(ss, acts, a, workers, domain);
    more, all := ss + [Next(ss[|acts|], a)], acts + [a];
  }

  /** The circuit has just opened at time 0, with worker 0's request still in flight. */
  lemma OpenWithStraggler(domain: string) returns (ss: seq<System>, acts: seq<Act>)
    ensures IsRun(ss, acts, 3) && |ss| == |acts| + 1 && ss[0] == IDLE && NoSuccess(ss, acts, domain, 0, |acts|)
    ensures CircuitOf(ss[|acts|].domains, domain) == Circuit(Open, THRESHOLD, 0)
    ensures ss[|acts|].inFlight == map[0 := domain] && ss[|acts|].clock == 0
  {
    hide IsRun, NoSuccess, CircuitOf;
    ss, acts := FailureByFailure(3, domain, THRESHOLD - 1);
    var straggler, ask, fail := Ask(0, domain, 0), Ask(1, domain, 0), Record(1, false, 0);
    CircuitAfter(ss[|acts|], straggler, 3, domain);
    ss, acts := Extended(ss, acts, straggler, 3, domain);
    CircuitAfter(ss[|acts|], ask, 3, domain);
    ss, acts := Extended(ss, acts, ask, 3, domain);
    CircuitAfter(ss[|acts|], fail, 3, domain);
    ss, acts := Extended(ss, acts, fail, 3, domain);
    assert ss[|acts|].inFlight == map[0 := domain];
  }

  /** A probe need not be alone: from an idle breaker a run leads to two probes of one domain in flight together. A
      straggler's failure reopens the half-open circuit, and a cooldown later the second probe is admitted. */
  lemma TwoProbesAtOnce(domain: string) returns (ss: seq<System>, acts: seq<Act>, i: nat)
    ensures IsRun(ss, acts, 3) && ss[0] == IDLE && |acts| == i + 3
    ensures IsProbe(ss[i], acts[i], domain) && IsProbe(ss[i + 2], acts[i + 2], domain)
    ensures acts[i].worker != acts[i + 2].worker && {acts[i].worker, acts[i + 2].worker} <= Busy(ss[i + 3], domain)
  {
    hide IsRun, NoSuccess, CircuitOf;
    ss, acts := OpenWithStraggler(domain);
    i := |acts|;
    var probe, late, second := Ask(1, domain, COOLDOWN), Record(0, false, COOLDOWN), Ask(2, domain, 2 * COOLDOWN);
    CircuitAfter(ss[|acts|], probe, 3, domain);
    ss, acts := Extended(ss, acts, probe, 3, domain);
    CircuitAfter(ss[|acts|], late, 3, domain);
    ss, acts := Extended(ss, acts, late, 3, domain);
    CircuitAfter(ss[|acts|], second, 3, domain);
    ss, acts := Extended(ss, acts, second, 3, domain);
  }

  /** A run that starts in `s` with the act `a`. */
  ghost predicate Continues(ss: seq<System>, acts: seq<Act>, s: System, a: Act, workers: nat) {
    IsRun(ss, acts, workers) && acts != [] && ss[0] == s && acts[0] == a
  }

  /** The worker of the first act has recorded nothing since. */
  ghost predicate StillOut(acts: seq<Act>, w: nat) {
    forall k :: 0 < k < |acts| ==> !(acts[k].Record? && acts[k].worker == w)
  }

  /** After the first act no request to the domain is admitted. */
  ghost predicate NoOther(ss: seq<System>, acts: seq<Act>, domain: string)
    requires |ss| == |acts| + 1
  {
    forall k :: 0 < k < |acts| && acts[k].Ask? && acts[k].domain == domain ==> !Admits(ss[k], acts[k])
  }

  /** However the run goes on, nobody else gets through until the prober has recorded its outcome. */
  ghost predicate ProbesAlone(s: System, a: Act, workers: nat, domain: string) {
    forall ss, acts :: Continues(ss, acts, s, a, workers) && StillOut(acts, a.worker) ==> NoOther(ss, acts, domain)
  }

  /** Without stragglers the circuit stays half-open and the prober stays the only worker busy with the domain. */
  lemma {:induction false} ProberStaysAlone(ss: seq<System>, acts: seq<Act>, s: System, a: Act, workers: nat,
                                            domain: string, n: nat)
    requires Continues(ss, acts, s, a, workers) && StillOut(acts, a.worker) && 0 < n <= |acts|
    requires IsProbe(s, a, domain) && Busy(s, domain) == {}
    ensures CircuitOf(ss[n].domains, domain).state == HalfOpen
    ensures forall u :: u in ss[n].inFlight && ss[n].inFlight[u] == domain ==> u == a.worker
    ensures forall k :: 0 < k < n && acts[k].Ask? && acts[k].domain == domain ==> !Admits(ss[k], acts[k])
  {
    var before, act := ss[n - 1], acts[n - 1];
    assert ss[n] == Next(before, act) && Enabled(before, act, workers);
    assert forall u :: u in s.inFlight && s.inFlight[u] == domain ==> u in Busy(s, domain);
    hide CircuitOf, DomainStep, Busy;
    CircuitAfter(before, act, workers, domain);
    if n > 1 {
      ProberStaysAlone(ss, acts, s, a, workers, domain, n - 1);
    }
  }

  /** A straggler that succeeds lets the next request through while the probe is still out. */
  lemma StragglerLetsThrough(s: System, a: Act, workers: nat, domain: string, u: nat)
    returns (ss: seq<System>, acts: seq<Act>)
    requires Enabled(s, a, workers) && IsProbe(s, a, domain) && (forall w :: w in s.inFlight ==> w < workers)
    requires u in Busy(s, domain)
    ensures Continues(ss, acts, s, a, workers) && StillOut(acts, a.worker) && !NoOther(ss, acts, domain)
  {
    var record, ask := Record(u, true, a.now), Ask(u, domain, a.now);
    var s1 := Next(s, a);
    var s2 := Next(s1, record);
    CircuitAfter(s1, record, workers, domain);
    ss, acts := [s, s1, s2, Next(s2, ask)], [a, record, ask];
    assert Admits(ss[2], acts[2]);
  }

  /** Exactly when the promise of a single probe holds: an admitted probe is alone until it is recorded, in every
      continuation, if and only if no request to the domain was in flight when it was admitted. */
  lemma ProbeAloneIffNoStragglers(s: System, a: Act, workers: nat, domain: string)
    requires Enabled(s, a, workers) && IsProbe(s, a, domain) && (forall w :: w in s.inFlight ==> w < workers)
    ensures ProbesAlone(s, a, workers, domain) <==> Busy(s, domain) == {}
  {
    hide StillOut, NoOther, IsProbe, Enabled, Busy, Next;
    if Busy(s, domain) == {} {
      forall ss, acts | Continues(ss, acts, s, a, workers) && StillOut(acts, a.worker)
        ensures NoOther(ss, acts, domain)
      {
        NoOtherFollows(ss, acts, s, a, workers, domain);
      }
    } else {
      var u :| u in Busy(s, domain);
      var ss, acts := StragglerLetsThrough(s, a, workers, domain, u);
    }
  }

  lemma NoOtherFollows(ss: seq<System>, acts: seq<Act>, s: System, a: Act, workers: nat, domain: string)
    requires Continues(ss, acts, s, a, workers) && StillOut(acts, a.worker)
    requires IsProbe(s, a, domain) && Busy(s, domain) == {}
    ensures NoOther(ss, acts, domain)
  {
    ProberStaysAlone(ss, acts, s, a, workers, domain, |acts|);
  }

  /** The act records a request to the domain, whatever its outcome. */
  predicate Reports(s: System, a: Act, domain: string) {
    a.Record? && a.worker in s.inFlight && s.inFlight[a.worker] == domain
  }

  /** A half-open circuit waits for a report, however long that takes: until some worker records a request to the
      domain, no request is admitted at any time. */
  lemma {:induction false} HalfOpenWaitsForReport(ss: seq<System>, acts: seq<Act>, workers: nat, domain: string, n: nat)
    requires IsRun(ss, acts, workers) && n <= |acts|
    requires CircuitOf(ss[0].domains, domain).state == HalfOpen
    requires forall k :: 0 <= k < n ==> !Reports(ss[k], acts[k], domain)
    ensures CircuitOf(ss[n].domains, domain) == CircuitOf(ss[0].domains, domain)
    ensures forall k :: 0 <= k < n && acts[k].Ask? && acts[k].domain == domain ==> !Admits(ss[k], acts[k])
    ensures forall now :: !Grants(CircuitOf(ss[n].domains, domain), now)
  {
    hide CircuitOf, DomainStep, Busy;
    if n > 0 {
      HalfOpenWaitsForReport(ss, acts, workers, domain, n - 1);
      CircuitAfter(ss[n - 1], acts[n - 1], workers, domain);
      assert ss[n] == Next(ss[n - 1], acts[n - 1]) && !Reports(ss[n - 1], acts[n - 1], domain);
    }
  }

  /** Whatever stragglers still report, an open circuit refuses until its cooldown is over and is not kept waiting any
      longer: the first request at or after openedAt + cooldown is admitted. */
  lemma {:induction false} StragglersDoNotDelayProbe(ss: seq<System>, acts: seq<Act>, workers: nat, domain: string,
                                                     n: nat)
    requires IsRun(ss, acts, workers) && n <= |acts| && NoSuccess(ss, acts, domain, 0, n)
    requires CircuitOf(ss[0].domains, domain).state == Open
    requires forall k :: 0 <= k < n && acts[k].Ask? && acts[k].domain == domain ==>
               acts[k].now < CircuitOf(ss[0].domains, domain).openedAt + COOLDOWN
    ensures var since := CircuitOf(ss[0].domains, domain).openedAt;
            && CircuitOf(ss[n].domains, domain).state == Open && CircuitOf(ss[n].domains, domain).openedAt == since
            && (forall k :: 0 <= k < n && acts[k].Ask? && acts[k].domain == domain ==> !Admits(ss[k], acts[k]))
            && (forall now :: Grants(CircuitOf(ss[n].domains, domain), now) <==> now >= since + COOLDOWN)
  {
    hide CircuitOf, DomainStep, Busy;
    if n > 0 {
      StragglersDoNotDelayProbe(ss, acts, workers, domain, n - 1);
      CircuitAfter(ss[n - 1], acts[n - 1], workers, domain);
      assert ss[n] == Next(ss[n - 1], acts[n - 1]) && !Succeeds(ss[n - 1], acts[n - 1], domain);
    }
  }

  /** The calls the first `n` acts make on the breaker, in order. */
  ghost function Events(ss: seq<System>, acts: seq<Act>, workers: nat, n: nat): seq<Event>
    requires IsRun(ss, acts, workers) && n <= |acts|
  {
    if n == 0 then []
    else
      EnabledRecord(ss[n - 1], acts[n - 1], workers);
      Events(ss, acts, workers, n - 1) + [EventOf(ss[n - 1], acts[n - 1])]
  }

  /** However the workers interleave, each domain's circuit is at every moment that of a source breaker that saw this
      domain's calls alone, and is closed exactly while it counts fewer failures than the threshold. */
  lemma {:induction false} InterleavingProjectsToSource(ss: seq<System>, acts: seq<Act>, workers: nat, domain: string,
                                                        n: nat)
    requires IsRun(ss, acts, workers) && ss[0].domains == map[] && n <= |acts|
    ensures CircuitOf(ss[n].domains, domain) == SourceRun(Filter(Events(ss, acts, workers, n), Of(domain)))
    ensures Consistent(CircuitOf(ss[n].domains, domain))
  {
    RunIsDomainRun(ss, acts, workers, n);
    DomainProjectsToSource(Events(ss, acts, workers, n), domain, 0);
    ClosedIffBelowThreshold(Events(ss, acts, workers, n), domain);
  }

  /** However the workers interleave, a domain's circuit has left the closed state exactly when the last outcomes
      recorded on it, as many as the threshold, are all failures; while closed it counts the failures since the last
      success. */
  lemma InterleavedOpensExactly(ss: seq<System>, acts: seq<Act>, workers: nat, domain: string, n: nat)
    requires IsRun(ss, acts, workers) && ss[0].domains == map[] && n <= |acts|
    ensures var c, evs := CircuitOf(ss[n].domains, domain), Events(ss, acts, workers, n);
            && (c.state != Closed <==> LastFailed(evs, domain, 5))
            && (c.state == Closed ==> c.failures == Streak(evs, domain))
  {
    hide CircuitOf, DomainRun, LastFailed, Streak, IsRun;
    RunIsDomainRun(ss, acts, workers, n);
    OpensExactly(Events(ss, acts, workers, n), domain);
    CountsSinceSuccess(Events(ss, acts, workers, n), domain);
  }

  lemma {:induction false} RunIsDomainRun(ss: seq<System>, acts: seq<Act>, workers: nat, n: nat)
    requires IsRun(ss, acts, workers) && ss[0].domains == map[] && n <= |acts|
    ensures ss[n].domains == DomainRun(Events(ss, acts, workers, n))
  {
    hide DomainStep, CircuitOf, Grants;
    if n > 0 {
      RunIsDomainRun(ss, acts, workers, n - 1);
      EnabledRecord(ss[n - 1], acts[n - 1], workers);
      var before := Events(ss, acts, workers, n - 1);
      assert Events(ss, acts, workers, n)[..|before|] == before;
      assert ss[n] == Next(ss[n - 1], acts[n - 1]);
    }
  }
}
