/** The circuit breaker's half-open verdict. The library's state rules (sony/gobreaker) are given: a
    half-open breaker lets N calls through, closes after N consecutive successes and reopens at a failure. */
module Breaking {
  import opened Domain

  datatype Config = Config(threshold: real, minimumRequests: int, permitted: int)

  /** normalizeCircuitBreakerConfig, for the settings the verdicts use. */
  function Normalize(cfg: Config): (r: Config)
    ensures r.threshold > 0.0 && (cfg.minimumRequests >= 0 ==> r.minimumRequests > 0)
            && (cfg.permitted >= 0 ==> r.permitted > 0)
    ensures cfg.threshold > 0.0 && cfg.minimumRequests > 0 && cfg.permitted > 0 ==> r == cfg
    ensures cfg.threshold <= 0.0 && cfg.minimumRequests == cfg.permitted == 0 ==> r == Config(50.0, 2, 1)
  {
    Config(if cfg.threshold <= 0.0 then 50.0 else cfg.threshold,
           if cfg.minimumRequests == 0 then 2 else cfg.minimumRequests,
           if cfg.permitted == 0 then 1 else cfg.permitted)
  }

  datatype State = Closed | Open | HalfOpen

  /** The library's state and counts, and the counters of the closures. */
  datatype Breaker = Breaker(
    state: State, requests: nat, failures: nat, consecutiveSuccesses: nat,
    halfOpenRequests: nat, halfOpenFailures: nat)

  const NEW := Breaker(Closed, 0, 0, 0, 0, 0)

  /** One call: whether the operation fails, whether the wait in the open state is over by then, and
      which of a closed breaker's counts are still in its sliding window. */
  datatype Call = Call(fails: bool, waited: bool, requestsLeft: nat, failuresLeft: nat)

  datatype Answer = Rejected | Judged(success: bool)

  predicate Percent(failures: nat, requests: nat, limit: real) {
    100.0 * (failures as real) <= limit * (requests as real)
  }

  predicate ReadyToTrip(cfg: Config, requests: nat, failures: nat) {
    requests >= cfg.minimumRequests && requests > 0 && 100.0 * (failures as real) >= cfg.threshold * (requests as real)
  }

  /** setState with OnStateChange: fresh counts, and fresh counters on the way into and out of half-open. */
  function Change(b: Breaker, to: State): Breaker {
    if b.state == to then b
    else if to.HalfOpen? || b.state.HalfOpen? then Breaker(to, 0, 0, 0, 0, 0)
    else Breaker(to, 0, 0, 0, b.halfOpenRequests, b.halfOpenFailures)
  }

  /** IsSuccessful: what it answers and the counters after it. */
  function Verdict(cfg: Config, b: Breaker, fails: bool): (Breaker, bool) {
    if !b.state.HalfOpen? then (b, !fails) else
      var b' := b.(halfOpenRequests := b.halfOpenRequests + 1,
                   halfOpenFailures := b.halfOpenFailures + if fails then 1 else 0);
      (b', b'.halfOpenRequests < cfg.permitted || Percent(b'.halfOpenFailures, b'.halfOpenRequests, cfg.threshold))
  }

  function Least(a: nat, b: nat): nat {
    if a < b then a else b
  }

  /** The counts before the operation runs. */
  function Before(b: Breaker, c: Call): Breaker {
    if b.state.Open? && c.waited then Change(b, HalfOpen)
    else if b.state.Closed? then
      b.(requests := Least(b.requests, c.requestsLeft), failures := Least(b.failures, c.failuresLeft))
    else b
  }

  /** afterRequest with the verdict. */
  function Settle(cfg: Config, b: Breaker, success: bool): Breaker {
    if success then
      var b' := b.(consecutiveSuccesses := b.consecutiveSuccesses + 1);
      if b.state.HalfOpen? && b'.consecutiveSuccesses >= cfg.permitted then Change(b', Closed) else b'
    else if b.state.HalfOpen? then Change(b, Open)
    else
      var b' := b.(failures := b.failures + 1, consecutiveSuccesses := 0);
      if ReadyToTrip(cfg, b'.requests, b'.failures) then Change(b', Open) else b'
  }

  /** One call of Execute, made while no other is under way. */
  function Execute(cfg: Config, b: Breaker, c: Call): (Breaker, Answer) {
    var b1 := Before(b, c);
    if b1.state.Open? || (b1.state.HalfOpen? && b1.requests >= cfg.permitted) then (b1, Rejected) else
      var (b2, success) := Verdict(cfg, b1.(requests := b1.requests + 1), c.fails);
      (Settle(cfg, b2, success), Judged(success))
  }

  function Run(cfg: Config, b: Breaker, calls: seq<Call>): Breaker
    decreases |calls|
  {
    if calls == [] then b else Execute(cfg, Run(cfg, b, calls[..|calls| - 1]), calls[|calls| - 1]).0
  }

  // ----- every reachable state -----

  /** Half-open counts and counters agree and are below N; outside half-open the counters are zero. */
  predicate Inv(cfg: Config, b: Breaker) {
    if b.state.HalfOpen? then
      && b.requests == b.consecutiveSuccesses == b.halfOpenRequests < cfg.permitted
      && b.halfOpenFailures <= b.halfOpenRequests
    else
      b.halfOpenRequests == 0 && b.halfOpenFailures == 0
  }

  lemma ExecuteKeeps(cfg: Config, b: Breaker, c: Call)
    requires cfg.permitted > 0 && Inv(cfg, b)
    ensures Inv(cfg, Execute(cfg, b, c).0)
    ensures b.state.HalfOpen? ==> Execute(cfg, b, c).1.Judged?
  {}

  lemma {:induction false} RunKeeps(cfg: Config, calls: seq<Call>)
    requires cfg.permitted > 0
    ensures Inv(cfg, Run(cfg, NEW, calls))
    decreases |calls|
  {
    if calls != [] {
      RunKeeps(cfg, calls[..|calls| - 1]);
      ExecuteKeeps(cfg, Run(cfg, NEW, calls[..|calls| - 1]), calls[|calls| - 1]);
    }
  }

  // ----- a closed breaker -----

  /** The rule that opens a closed breaker, over what the window still holds before the call. */
  lemma TripsOn(cfg: Config, b: Breaker, c: Call)
    requires b.state.Closed? && c.fails
    ensures var requests := if c.requestsLeft < b.requests then c.requestsLeft else b.requests;
            var failures := if c.failuresLeft < b.failures then c.failuresLeft else b.failures;
            var (b', answer) := Execute(cfg, b, c);
            && answer == Judged(false)
            && b'.state == if requests + 1 >= cfg.minimumRequests
                              && 100.0 * ((failures + 1) as real) >= cfg.threshold * ((requests + 1) as real)
                           then Open else Closed
  {}

  /** A call that works never opens it, and is answered as it went. */
  lemma StaysClosed(cfg: Config, b: Breaker, c: Call)
    requires b.state.Closed? && !c.fails
    ensures Execute(cfg, b, c).0.state.Closed? && Execute(cfg, b, c).1 == Judged(true)
  {}

  /** An open breaker rejects every call until its wait is over, and does not change. */
  lemma RejectsWhileOpen(cfg: Config, b: Breaker, c: Call)
    requires b.state.Open? && !c.waited
    ensures Execute(cfg, b, c) == (b, Rejected)
  {}

  /** The sliding window still holds every call of the run. */
  predicate WindowHolds(calls: seq<Call>) {
    forall k | 0 <= k < |calls| :: calls[k].requestsLeft >= k && calls[k].failuresLeft >= k
  }

  /** Call k failed, and by then there were calls enough and failures enough among them. */
  predicate TripsAt(cfg: Config, calls: seq<Call>, k: nat) {
    && k < |calls| && calls[k].fails && k + 1 >= cfg.minimumRequests
    && 100.0 * (Failures(calls[..k + 1]) as real) >= cfg.threshold * ((k + 1) as real)
  }

  function Failing(calls: seq<Call>): set<nat> {
    set k: nat | k < |calls| && calls[k].fails
  }

  /** The failures counted are the calls that fail. */
  lemma {:induction false} FailuresCount(calls: seq<Call>)
    ensures Failures(calls) == |Failing(calls)|
  {
    if calls == [] {
      assert Failing(calls) == {};
    } else {
      var n := |calls| - 1;
      FailuresCount(calls[..n]);
      forall k: nat ensures k in Failing(calls) <==> k in Failing(calls[..n]) || (k == n && calls[n].fails) {
        assert k < n ==> calls[..n][k] == calls[k];
      }
      assert Failing(calls) == Failing(calls[..n]) + if calls[n].fails then {n} else {};
    }
  }

  /** A new breaker opens at the first call that trips it: as long as none has, it is closed, has counted
      every call and every failure, and answers each call as it went. */
  lemma {:induction false} TripsExactly(cfg: Config, calls: seq<Call>)
    requires cfg.permitted > 0 && WindowHolds(calls)
    requires forall k: nat | k < |calls| - 1 :: !TripsAt(cfg, calls, k)
    ensures calls != [] ==>
              var n := |calls| - 1;
              Execute(cfg, Run(cfg, NEW, calls[..n]), calls[n]).1 == Judged(!calls[n].fails)
    ensures var b := Run(cfg, NEW, calls);
            if calls != [] && TripsAt(cfg, calls, |calls| - 1) then b.state.Open?
            else b.state.Closed? && b.requests == |calls| && b.failures == Failures(calls) <= |calls|
    decreases |calls|
  {
    if calls != [] {
      var n := |calls| - 1;
      var before, c := calls[..n], calls[n];
      forall k: nat | k < n ensures !TripsAt(cfg, before, k) {
        assert before[..k + 1] == calls[..k + 1];
        assert !TripsAt(cfg, calls, k);
      }
      TripsExactly(cfg, before);
      assert n > 0 ==> !TripsAt(cfg, before, n - 1);
      var b := Run(cfg, NEW, before);
      assert calls[..n + 1] == calls;
      LastCall(cfg, b, calls);
    }
  }

  lemma LastCall(cfg: Config, b: Breaker, calls: seq<Call>)
    requires calls != [] && b.state.Closed? && calls[..|calls|] == calls
    requires b.requests == |calls| - 1 && b.failures == Failures(calls[..|calls| - 1]) <= |calls| - 1
    requires calls[|calls| - 1].requestsLeft >= |calls| - 1 && calls[|calls| - 1].failuresLeft >= |calls| - 1
    ensures Execute(cfg, b, calls[|calls| - 1]).1 == Judged(!calls[|calls| - 1].fails)
    ensures var b' := Execute(cfg, b, calls[|calls| - 1]).0;
            if TripsAt(cfg, calls, |calls| - 1) then b'.state.Open?
            else b'.state.Closed? && b'.requests == |calls| && b'.failures == Failures(calls) <= |calls|
  {
    if calls[|calls| - 1].fails {
      TripsOn(cfg, b, calls[|calls| - 1]);
    }
  }

  /** With the settings of an unconfigured breaker, two failing calls open it. */
  lemma TwoFailuresOpen(calls: seq<Call>)
    requires |calls| == 2 && calls[0].fails && calls[1].fails && WindowHolds(calls)
    ensures Run(Config(50.0, 2, 1), NEW, calls).state.Open?
  {
    var cfg := Config(50.0, 2, 1);
    var one := calls[..1];
    assert one[..0] == [] && one[0] == calls[0] && calls[..2] == calls;
    assert Failures(one[..0]) == 0;
    assert Failures(one) == 1;
    assert Failures(calls) == 2;
    TripsExactly(cfg, calls);
  }

  // ----- a half-open episode -----

  function Failures(calls: seq<Call>): nat {
    if calls == [] then 0 else Failures(calls[..|calls| - 1]) + if calls[|calls| - 1].fails then 1 else 0
  }

  /** The first calls of an episode, fewer than N, are judged successes whatever happened. */
  lemma {:induction false} Probing(cfg: Config, b: Breaker, calls: seq<Call>)
    requires cfg.permitted > 0 && b.state.Open? && Inv(cfg, b) && calls != [] && calls[0].waited
             && |calls| < cfg.permitted
    ensures Run(cfg, b, calls) == Breaker(HalfOpen, |calls|, 0, |calls|, |calls|, Failures(calls))
    ensures Execute(cfg, Run(cfg, b, calls[..|calls| - 1]), calls[|calls| - 1]).1 == Judged(true)
    decreases |calls|
  {
    var n := |calls| - 1;
    if n > 0 {
      assert calls[..n][0] == calls[0];
      Probing(cfg, b, calls[..n]);
    } else {
      assert calls[..0] == [];
    }
  }

  /** The N-th call of an episode decides. */
  lemma LastProbe(cfg: Config, c: Call, failures: nat)
    requires cfg.permitted > 1
    ensures var n := cfg.permitted - 1;
            Execute(cfg, Breaker(HalfOpen, n, 0, n, n, failures), c).0
            == Breaker(
                 if Percent(failures + (if c.fails then 1 else 0), cfg.permitted, cfg.threshold) then Closed else Open,
                 0, 0, 0, 0, 0)
  {}

  lemma OnlyProbe(cfg: Config, b: Breaker, c: Call)
    requires cfg.permitted == 1 && b.state.Open? && c.waited
    ensures Execute(cfg, b, c).0
            == Breaker(
                 if Percent(if c.fails then 1 else 0, cfg.permitted, cfg.threshold) then Closed else Open,
                 0, 0, 0, 0, 0)
  {}

  lemma EpisodeEnds(cfg: Config, b: Breaker, calls: seq<Call>)
    requires cfg.permitted > 0 && b.state.Open? && Inv(cfg, b) && calls != [] && calls[0].waited
             && |calls| == cfg.permitted
    ensures Run(cfg, b, calls)
            == Breaker(if Percent(Failures(calls), cfg.permitted, cfg.threshold) then Closed else Open, 0, 0, 0, 0, 0)
  {
    var n := cfg.permitted - 1;
    if n > 0 {
      assert calls[..n][0] == calls[0];
      Probing(cfg, b, calls[..n]);
      LastProbe(cfg, calls[n], Failures(calls[..n]));
    } else {
      assert calls[..0] == [];
      OnlyProbe(cfg, b, calls[0]);
    }
  }

  lemma Decided(cfg: Config, failures: nat, b: Breaker)
    requires cfg.permitted > 0
    requires b == Breaker(if Percent(failures, cfg.permitted, cfg.threshold) then Closed else Open, 0, 0, 0, 0, 0)
    ensures b.state.Closed? <==> 100.0 * (failures as real) <= cfg.threshold * (cfg.permitted as real)
    ensures b == Breaker(Closed, 0, 0, 0, 0, 0) || b == Breaker(Open, 0, 0, 0, 0, 0)
  {}

  lemma StillProbing(cfg: Config, b: Breaker, calls: seq<Call>, k: nat)
    requires b.state.Open? && Inv(cfg, b) && calls != [] && calls[0].waited && |calls| == cfg.permitted
    requires 0 < k < cfg.permitted
    ensures Run(cfg, b, calls[..k]).state.HalfOpen?
  {
    assert calls[..k][0] == calls[0];
    Probing(cfg, b, calls[..k]);
  }

  /** An episode takes exactly N calls: the N-th closes the breaker exactly when the failures among the
      N are at most `threshold` percent, and reopens it otherwise. */
  lemma HalfOpenVerdict(cfg: Config, b: Breaker, calls: seq<Call>)
    requires cfg.permitted > 0 && b.state.Open? && Inv(cfg, b) && calls != [] && calls[0].waited
             && |calls| == cfg.permitted
    ensures Run(cfg, b, calls).state.Closed?
            <==> 100.0 * (Failures(calls) as real) <= cfg.threshold * (cfg.permitted as real)
    ensures Run(cfg, b, calls) == Breaker(Closed, 0, 0, 0, 0, 0) || Run(cfg, b, calls) == Breaker(Open, 0, 0, 0, 0, 0)
    ensures forall k | 0 < k < cfg.permitted :: Run(cfg, b, calls[..k]).state.HalfOpen?
  {
    EpisodeEnds(cfg, b, calls);
    Decided(cfg, Failures(calls), Run(cfg, b, calls));
    forall k: nat | 0 < k < cfg.permitted ensures Run(cfg, b, calls[..k]).state.HalfOpen? {
      StillProbing(cfg, b, calls, k);
    }
  }

  /** At exactly the threshold the two rules differ: the counts that trip a closed breaker close a
      half-open one. */
  lemma AtTheThreshold(cfg: Config, failures: nat)
    requires cfg.permitted > 0 && cfg.permitted >= cfg.minimumRequests
    requires 100.0 * (failures as real) == cfg.threshold * (cfg.permitted as real)
    ensures ReadyToTrip(cfg, cfg.permitted, failures) && Percent(failures, cfg.permitted, cfg.threshold)
  {}

  // ----- the breaker with its closures -----

  class CircuitBreaker {
    const cfg: Config
    var current: State
    var requests: nat
    var failures: nat
    var consecutiveSuccesses: nat
    var observed: State
    var halfOpenRequests: nat
    var halfOpenFailures: nat

    constructor (cfg: Config)
      ensures this.cfg == Normalize(cfg) && Valid() && Now() == NEW
    {
      this.cfg := Normalize(cfg);
      current, requests, failures, consecutiveSuccesses := Closed, 0, 0, 0;
      observed, halfOpenRequests, halfOpenFailures := Closed, 0, 0;
    }

    /** The closures' copy of the state is the library's. */
    predicate Valid()
      reads this
    {
      observed == current
    }

    function Now(): Breaker
      reads this
    {
      Breaker(current, requests, failures, consecutiveSuccesses, halfOpenRequests, halfOpenFailures)
    }

    method OnStateChange(from: State, to: State)
      modifies this`observed, this`halfOpenRequests, this`halfOpenFailures
      ensures observed == to
      ensures halfOpenRequests == (if to.HalfOpen? || from.HalfOpen? then 0 else old(halfOpenRequests))
      ensures halfOpenFailures == (if to.HalfOpen? || from.HalfOpen? then 0 else old(halfOpenFailures))
    {
      observed := to;
      if to.HalfOpen? || from.HalfOpen? {
        halfOpenRequests, halfOpenFailures := 0, 0;
      }
    }

    method IsSuccessful(fails: bool) returns (success: bool)
      requires Valid()
      modifies this`halfOpenRequests, this`halfOpenFailures
      ensures Valid() && (Now(), success) == Verdict(cfg, old(Now()), fails)
    {
      if observed != HalfOpen {
        return !fails;
      }
      halfOpenRequests := halfOpenRequests + 1;
      if fails {
        halfOpenFailures := halfOpenFailures + 1;
      }
      if halfOpenRequests < cfg.permitted {
        return true;
      }
      success := Percent(halfOpenFailures, halfOpenRequests, cfg.threshold);
    }

    method SetState(to: State)
      requires Valid()
      modifies this
      ensures Valid() && Now() == Change(old(Now()), to)
    {
      if current == to {
        return;
      }
      var from := current;
      current, requests, failures, consecutiveSuccesses := to, 0, 0, 0;
      OnStateChange(from, to);
    }

    method BeforeRequest(c: Call) returns (admitted: bool)
      requires Valid()
      modifies this
      ensures Valid()
      ensures var b := Before(old(Now()), c);
              && admitted == !(b.state.Open? || (b.state.HalfOpen? && b.requests >= cfg.permitted))
              && Now() == if admitted then b.(requests := b.requests + 1) else b
    {
      if current == Closed {
        requests, failures := Least(requests, c.requestsLeft), Least(failures, c.failuresLeft);
      } else if current == Open && c.waited {
        SetState(HalfOpen);
      }
      if current == Open || (current == HalfOpen && requests >= cfg.permitted) {
        return false;
      }
      requests := requests + 1;
      admitted := true;
    }

    method AfterRequest(success: bool)
      requires Valid()
      modifies this
      ensures Valid() && Now() == Settle(cfg, old(Now()), success)
    {
      if success {
        consecutiveSuccesses := consecutiveSuccesses + 1;
        if current == HalfOpen && consecutiveSuccesses >= cfg.permitted {
          SetState(Closed);
        }
      } else if current == HalfOpen {
        SetState(Open);
      } else {
        failures, consecutiveSuccesses := failures + 1, 0;
        if ReadyToTrip(cfg, requests, failures) {
          SetState(Open);
        }
      }
    }

    method ExecuteCall(c: Call) returns (answer: Answer)
      requires Valid()
      modifies this
      ensures Valid() && (Now(), answer) == Execute(cfg, old(Now()), c)
      ensures old(current).Open? && !c.waited ==> answer == Rejected && Now() == old(Now())
      ensures old(current).Closed? && !c.fails ==> answer == Judged(true) && current.Closed?
      ensures old(current).Closed? && c.fails && c.requestsLeft >= old(requests) && c.failuresLeft >= old(failures) ==>
                && answer == Judged(false)
                && (current.Open? <==>
                      old(requests) + 1 >= cfg.minimumRequests &&
                      100.0 * ((old(failures) + 1) as real) >= cfg.threshold * ((old(requests) + 1) as real))
    {
      var admitted := BeforeRequest(c);
      if !admitted {
        return Rejected;
      }
      var success := IsSuccessful(c.fails);
      AfterRequest(success);
      answer := Judged(success);
    }
  }
}
