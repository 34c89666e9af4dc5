/** The two circuit breakers: one for a single source, one keyed by domain. Times are nanoseconds. */
module CircuitBreaker {
  import opened Collections

  datatype CircuitState = Closed | Open | HalfOpen

  datatype Circuit = Circuit(state: CircuitState, failures: nat, openedAt: int)

  const THRESHOLD := 5
  const COOLDOWN := 120_000_000_000

  const FRESH := Circuit(Closed, 0, 0)

  /** Whether a request may proceed now. */
  predicate Grants(c: Circuit, now: int) {
    c.state == Closed || (c.state == Open && now - c.openedAt >= COOLDOWN)
  }

  /** Asking lets one probe through an open circuit whose cooldown is over. */
  function AfterAllow(c: Circuit, now: int): Circuit {
    if c.state == Open && Grants(c, now) then c.(state := HalfOpen) else c
  }

  function AfterSuccess(c: Circuit): Circuit {
    c.(state := Closed, failures := 0)
  }

  function AfterFailure(c: Circuit, now: int): Circuit {
    if c.state == HalfOpen then c.(state := Open, openedAt := now)
    else if c.failures + 1 >= THRESHOLD && c.state != Open then Circuit(Open, c.failures + 1, now)
    else c.(failures := c.failures + 1)
  }

  /** A circuit is closed exactly while its failures are below the threshold. */
  predicate Consistent(c: Circuit) {
    c.state == Closed <==> c.failures < THRESHOLD
  }

  /** The breaker of a single source. */
  class SourceBreaker {
    var state: CircuitState
    var consecutiveFailures: nat
    var openedAt: int

    ghost function Contents(): Circuit
      reads this
    {
      Circuit(state, consecutiveFailures, openedAt)
    }

    constructor ()
      ensures Contents() == FRESH
    {
      state, consecutiveFailures, openedAt := Closed, 0, 0;
    }

    method Allow(now: int) returns (granted: bool)
      modifies this`state
      ensures granted == Grants(old(Contents()), now) && Contents() == AfterAllow(old(Contents()), now)
    {
      match state
      case Open =>
        if now - openedAt < COOLDOWN {
          return false;
        }
        state := HalfOpen;
        return true;
      case HalfOpen => return false;
      case Closed => return true;
    }

    method RecordSuccess()
      modifies this`state, this`consecutiveFailures
      ensures Contents() == AfterSuccess(old(Contents()))
    {
      state := Closed;
      consecutiveFailures := 0;
    }

    method RecordFailure(now: int)
      modifies this
      ensures Contents() == AfterFailure(old(Contents()), now)
    {
      if state == HalfOpen {
        state := Open;
        openedAt := now;
        return;
      }
      consecutiveFailures := consecutiveFailures + 1;
      if consecutiveFailures >= THRESHOLD && state != Open {
        state := Open;
        openedAt := now;
      }
    }
  }

  /** The circuit of a domain; one that never failed has no entry and is fresh. */
  function CircuitOf(domains: map<string, Circuit>, domain: string): Circuit {
    if domain in domains then domains[domain] else FRESH
  }

  /** One domain's record in the breaker's table. */
  class DomainCircuit {
    var state: CircuitState
    var consecutiveFailures: nat
    var openedAt: int

    ghost function Value(): Circuit
      reads this
    {
      Circuit(state, consecutiveFailures, openedAt)
    }

    constructor ()
      ensures Value() == FRESH
    {
      state, consecutiveFailures, openedAt := Closed, 0, 0;
    }

    /** Counts one failure. */
    method Fail(now: int)
      modifies this
      ensures Value() == AfterFailure(old(Value()), now)
    {
      if state == HalfOpen {
        state := Open;
        openedAt := now;
        return;
      }
      consecutiveFailures := consecutiveFailures + 1;
      if consecutiveFailures >= THRESHOLD && state != Open {
        state := Open;
        openedAt := now;
      }
    }
  }

  /** The breaker keyed by domain; only domains that have failed have a record, and no two share one. */
  class DomainBreaker {
    var domains: map<string, DomainCircuit>

    ghost function Records(): set<DomainCircuit>
      reads this
    {
      set d | d in domains :: domains[d]
    }

    ghost predicate Valid()
      reads this
    {
      forall d, e :: d in domains && e in domains && d != e ==> domains[d] != domains[e]
    }

    ghost function Contents(): map<string, Circuit>
      reads this, Records()
    {
      map d | d in domains :: domains[d].Value()
    }

    constructor ()
      ensures Valid() && Contents() == map[]
    {
      domains := map[];
    }

    method Allow(domain: string, now: int) returns (granted: bool)
      requires Valid()
      modifies Records()
      ensures Valid() && Records() == old(Records())
      ensures granted == Grants(CircuitOf(old(Contents()), domain), now)
      ensures Contents() == DomainStep(old(Contents()), Asked(domain, now))
    {
      if domain !in domains {
        return true;
      }
      var c := domains[domain];
      match c.state
      case Open =>
        if now - c.openedAt < COOLDOWN {
          return false;
        }
        c.state := HalfOpen;
        return true;
      case HalfOpen => return false;
      case Closed => return true;
    }

    method RecordSuccess(domain: string)
      requires Valid()
      modifies Records()
      ensures Valid() && Records() == old(Records())
      ensures Contents() == DomainStep(old(Contents()), Succeeded(domain))
    {
      if domain !in domains {
        return;
      }
      var c := domains[domain];
      c.state := Closed;
      c.consecutiveFailures := 0;
    }

    method RecordFailure(domain: string, now: int)
      requires Valid()
      modifies this, Records()
      ensures Valid() && fresh(Records() - old(Records()))
      ensures Contents() == DomainStep(old(Contents()), Failed(domain, now))
    {
      var c;
      if domain in domains {
        c := domains[domain];
      } else {
        c := new DomainCircuit();
        domains := domains[domain := c];
      }
      hide AfterFailure;
      c.Fail(now);
    }
  }

  // ----- runs, and the projection of one breaker onto the other

  datatype Event = Asked(domain: string, now: int) | Succeeded(domain: string) | Failed(domain: string, now: int)

  function SourceStep(c: Circuit, ev: Event): Circuit {
    match ev
    case Asked(_, now) => AfterAllow(c, now)
    case Succeeded(_) => AfterSuccess(c)
    case Failed(_, now) => AfterFailure(c, now)
  }

  function DomainStep(domains: map<string, Circuit>, ev: Event): map<string, Circuit> {
    match ev
    case Asked(d, now) => if d in domains then domains[d := AfterAllow(domains[d], now)] else domains
    case Succeeded(d) => if d in domains then domains[d := AfterSuccess(domains[d])] else domains
    case Failed(d, now) => domains[d := AfterFailure(CircuitOf(domains, d), now)]
  }

  function SourceRun(evs: seq<Event>): Circuit {
    if evs == [] then FRESH else SourceStep(SourceRun(evs[..|evs| - 1]), evs[|evs| - 1])
  }

  function DomainRun(evs: seq<Event>): map<string, Circuit> {
    if evs == [] then map[] else DomainStep(DomainRun(evs[..|evs| - 1]), evs[|evs| - 1])
  }

  function Of(domain: string): Event -> bool {
    (ev: Event) => ev.domain == domain
  }

  /** The domain breaker refines the source breaker: however events on other domains interleave, one domain's
      circuit -- and so its answer at any time -- is that of a source breaker fed that domain's events alone. */
  lemma {:induction false} DomainProjectsToSource(evs: seq<Event>, domain: string, now: int)
    ensures CircuitOf(DomainRun(evs), domain) == SourceRun(Filter(evs, Of(domain)))
    ensures Grants(CircuitOf(DomainRun(evs), domain), now) == Grants(SourceRun(Filter(evs, Of(domain))), now)
  {
    if evs != [] {
      var rest, ev := evs[..|evs| - 1], evs[|evs| - 1];
      DomainProjectsToSource(rest, domain, now);
      var mine := Filter(rest, Of(domain));
      if ev.domain == domain {
        assert Filter(evs, Of(domain)) == mine + [ev];
        assert (mine + [ev])[..|mine|] == mine;
      } else {
        assert Filter(evs, Of(domain)) == mine;
      }
    }
  }

  /** In every run, a domain's circuit is closed exactly while it has fewer failures than the threshold. */
  lemma {:induction false} ClosedIffBelowThreshold(evs: seq<Event>, domain: string)
    ensures Consistent(CircuitOf(DomainRun(evs), domain))
  {
    if evs != [] {
      ClosedIffBelowThreshold(evs[..|evs| - 1], domain);
    }
  }

  // ----- what the count counts

  function FailedOn(domain: string): Event -> bool {
    (ev: Event) => ev.Failed? && ev.domain == domain
  }

  predicate SucceedsOn(ev: Event, domain: string) {
    ev.Succeeded? && ev.domain == domain
  }

  /** The recorded outcomes on a domain. */
  function OutcomeOn(domain: string): Event -> bool {
    (ev: Event) => !ev.Asked? && ev.domain == domain
  }

  /** The failures on a domain since its last success. */
  function Streak(evs: seq<Event>, domain: string): nat {
    if evs == [] then 0
    else
      var rest, ev := evs[..|evs| - 1], evs[|evs| - 1];
      if SucceedsOn(ev, domain) then 0 else Streak(rest, domain) + if FailedOn(domain)(ev) then 1 else 0
  }

  /** The streak is the number of failures after the last success, or of all failures when there is none. */
  lemma {:induction false} StreakSinceSuccess(evs: seq<Event>, domain: string, i: nat)
    requires i <= |evs| && (i > 0 ==> SucceedsOn(evs[i - 1], domain))
    requires forall k :: i <= k < |evs| ==> !SucceedsOn(evs[k], domain)
    ensures Streak(evs, domain) == |Filter(evs[i..], FailedOn(domain))|
  {
    var n := |evs| - 1;
    if i <= n {
      StreakSinceSuccess(evs[..n], domain, i);
      assert evs[i..] == evs[..n][i..] + [evs[n]];
      FilterSnoc(evs[..n][i..], evs[n], FailedOn(domain));
    } else {
      assert evs[i..] == [];
    }
  }

  /** The last `n` recorded outcomes on the domain are all failures. */
  ghost predicate LastFailed(evs: seq<Event>, domain: string, n: nat) {
    var outcomes := Filter(evs, OutcomeOn(domain));
    n <= |outcomes| && forall k :: |outcomes| - n <= k < |outcomes| ==> outcomes[k].Failed?
  }

  /** The streak has a length exactly when that many last outcomes are failures. */
  lemma {:induction false} StreakIsTail(evs: seq<Event>, domain: string, n: nat)
    ensures Streak(evs, domain) >= n <==> LastFailed(evs, domain, n)
  {
    if evs != [] && n > 0 {
      var rest, ev := evs[..|evs| - 1], evs[|evs| - 1];
      var before := Filter(rest, OutcomeOn(domain));
      if OutcomeOn(domain)(ev) {
        StreakIsTail(rest, domain, n - 1);
        var outcomes := Filter(evs, OutcomeOn(domain));
        assert outcomes == before + [ev];
        assert outcomes[|before|] == ev && forall k :: 0 <= k < |before| ==> outcomes[k] == before[k];
      } else {
        StreakIsTail(rest, domain, n);
        assert Filter(evs, OutcomeOn(domain)) == before;
      }
    }
  }

  /** In every run a closed circuit counts exactly the failures since the last success, and fewer than the threshold;
      one that is not closed has seen at least that many. */
  lemma {:induction false} CountsSinceSuccess(evs: seq<Event>, domain: string)
    ensures var c := CircuitOf(DomainRun(evs), domain);
            && (c.state == Closed <==> Streak(evs, domain) < THRESHOLD)
            && (c.state == Closed ==> c.failures == Streak(evs, domain))
            && c.failures <= Streak(evs, domain)
            && (c.state != Closed ==> c.failures >= THRESHOLD)
  {
    if evs != [] {
      CountsSinceSuccess(evs[..|evs| - 1], domain);
    }
  }

  /** In every run a domain's circuit has left the closed state exactly when the last five outcomes recorded on it are
      all failures: any success starts the count again. */
  lemma OpensExactly(evs: seq<Event>, domain: string)
    ensures CircuitOf(DomainRun(evs), domain).state != Closed <==> LastFailed(evs, domain, 5)
  {
    hide DomainRun, Streak, LastFailed;
    CountsSinceSuccess(evs, domain);
    StreakIsTail(evs, domain, THRESHOLD);
  }

  /** An open circuit opened at the time of one failure on its domain, when it was not open, has been open since, and
      lets a request through exactly when 120 seconds have passed. */
  lemma {:induction false} OpenSince(evs: seq<Event>, domain: string) returns (k: nat)
    requires CircuitOf(DomainRun(evs), domain).state == Open
    ensures k < |evs| && evs[k].Failed? && evs[k].domain == domain
    ensures evs[k].now == CircuitOf(DomainRun(evs), domain).openedAt
    ensures CircuitOf(DomainRun(evs[..k]), domain).state != Open
    ensures forall j :: k < j <= |evs| ==> CircuitOf(DomainRun(evs[..j]), domain).state == Open
    ensures forall now ::
              Grants(CircuitOf(DomainRun(evs), domain), now) <==> now >= evs[k].now + 120_000_000_000
  {
    var n := |evs| - 1;
    assert evs[..|evs|] == evs;
    if CircuitOf(DomainRun(evs[..n]), domain).state == Open {
      k := OpenSince(evs[..n], domain);
      assert evs[..n][..k] == evs[..k];
      forall j | k < j <= n
        ensures CircuitOf(DomainRun(evs[..j]), domain).state == Open
      {
        assert evs[..n][..j] == evs[..j];
      }
    } else {
      k := n;
    }
  }

  /** Only a domain that failed has an entry, so the table is bounded by the domains seen failing. */
  lemma {:induction false} OnlyFailedDomainsAreKept(evs: seq<Event>, domain: string)
    ensures domain in DomainRun(evs) <==> exists k :: 0 <= k < |evs| && evs[k].Failed? && evs[k].domain == domain
  {
    if evs != [] {
      var n := |evs| - 1;
      OnlyFailedDomainsAreKept(evs[..n], domain);
      assert forall k :: 0 <= k < n ==> evs[..n][k] == evs[k];
    }
  }
}
