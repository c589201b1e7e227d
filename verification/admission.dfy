/** Which requests the rate limiter admits, said of the requests alone. */
module Admission {
  import opened RateLimiting

  /** Request j is one of this IP and was admitted. */
  predicate Admits(rs: seq<Request>, ds: seq<bool>, ip: string, j: nat) {
    j < |rs| && j < |ds| && rs[j].ip == ip && ds[j]
  }

  /** What a bucket that was full at request j still has at time t, given the requests admitted since. */
  function LeftSince(lim: Limits, rs: seq<Request>, ds: seq<bool>, ip: string, j: nat, t: real): real
    requires j < |rs| == |ds|
  {
    lim.burst as real + (t - rs[j].at) - Admitted(rs, ds, ip, j) as real
  }

  /** The level is the least of a full bucket and of what is left since each admitted request. */
  ghost predicate IsLeast(lim: Limits, rs: seq<Request>, ds: seq<bool>, ip: string, level: real, t: real)
    requires |rs| == |ds|
  {
    && level <= lim.burst as real
    && (forall j: nat | Admits(rs, ds, ip, j) :: level <= LeftSince(lim, rs, ds, ip, j, t))
    && (level == lim.burst as real ||
        exists j: nat :: Admits(rs, ds, ip, j) && level == LeftSince(lim, rs, ds, ip, j, t))
  }

  lemma AdmittedLast(rs: seq<Request>, ds: seq<bool>, r: Request, ok: bool, ip: string, j: nat)
    requires |rs| == |ds| && j <= |rs|
    ensures Admitted(rs + [r], ds + [ok], ip, j) == Admitted(rs, ds, ip, j) + if r.ip == ip && ok then 1 else 0
    ensures Admitted(rs, ds, ip, |rs|) == 0
  {
    assert (rs + [r])[..|rs|] == rs && (ds + [ok])[..|ds|] == ds;
  }

  lemma AdmitsEarlier(rs: seq<Request>, ds: seq<bool>, r: Request, ok: bool, ip: string, j: nat)
    requires |rs| == |ds|
    ensures Admits(rs + [r], ds + [ok], ip, j) <==> Admits(rs, ds, ip, j) || (j == |rs| && r.ip == ip && ok)
  {}

  /** A request that takes no token of this IP only lets time pass. */
  lemma LeastWaits(lim: Limits, rs: seq<Request>, ds: seq<bool>, r: Request, ok: bool, ip: string, level: real, t: real)
    requires |rs| == |ds| && IsLeast(lim, rs, ds, ip, level, t) && !(r.ip == ip && ok)
    ensures IsLeast(lim, rs + [r], ds + [ok], ip, level, t)
  {
    forall j: nat ensures Admits(rs + [r], ds + [ok], ip, j) <==> Admits(rs, ds, ip, j) {
      AdmitsEarlier(rs, ds, r, ok, ip, j);
    }
    forall j: nat | Admits(rs, ds, ip, j)
      ensures LeftSince(lim, rs + [r], ds + [ok], ip, j, t) == LeftSince(lim, rs, ds, ip, j, t)
    {
      AdmittedLast(rs, ds, r, ok, ip, j);
    }
  }

  /** An admitted request takes one token, and then the bucket fills up again. */
  lemma LeastTakes(lim: Limits, rs: seq<Request>, ds: seq<bool>, r: Request, level: real, t: real)
    requires |rs| == |ds| && r.at <= t && IsLeast(lim, rs, ds, r.ip, level, r.at)
    ensures var filled := level - 1.0 + (t - r.at);
            var level' := if filled > lim.burst as real then lim.burst as real else filled;
            IsLeast(lim, rs + [r], ds + [true], r.ip, level', t)
  {
    var ip, n := r.ip, |rs|;
    var rs', ds' := rs + [r], ds + [true];
    AdmittedLast(rs, ds, r, true, ip, n);
    AdmitsEarlier(rs, ds, r, true, ip, n);
    assert LeftSince(lim, rs', ds', ip, n, t) == lim.burst as real + (t - r.at) - 1.0;
    forall j: nat | j < n
      ensures Admits(rs', ds', ip, j) <==> Admits(rs, ds, ip, j)
      ensures LeftSince(lim, rs', ds', ip, j, t) == LeftSince(lim, rs, ds, ip, j, r.at) + (t - r.at) - 1.0
    {
      AdmitsEarlier(rs, ds, r, true, ip, j);
      AdmittedLast(rs, ds, r, true, ip, j);
    }
    assert forall j: nat | Admits(rs', ds', ip, j) :: j < n || j == n;
    if level == lim.burst as real {
      assert Admits(rs', ds', ip, n);
    } else {
      var j: nat :| Admits(rs, ds, ip, j) && level == LeftSince(lim, rs, ds, ip, j, r.at);
      assert Admits(rs', ds', ip, j);
    }
  }

  lemma ForeverStep(lim: Limits, rs: seq<Request>, r: Request)
    ensures var (m, ds) := DecideForever(lim, rs);
            var (m', ok) := AllowForever(lim, m, r);
            DecideForever(lim, rs + [r]) == (m', ds + [ok])
  {
    assert (rs + [r])[..|rs|] == rs;
  }

  lemma LevelAfter(lim: Limits, m: map<string, Bucket>, r: Request, ip: string, clock: real, t: real)
    requires Usable(lim) && 0.0 <= clock <= r.at <= t && (ip in m ==> BucketOk(lim, m[ip], clock))
    ensures var (m', ok) := AllowForever(lim, m, r);
            var filled := Level(lim, Held(lim, m, ip), r.at) - 1.0 + (t - r.at);
            Level(lim, Held(lim, m', ip), t)
            == if r.ip == ip && ok then (if filled > lim.burst as real then lim.burst as real else filled)
               else Level(lim, Held(lim, m, ip), t)
  {}

  /** At any time not before the last request the bucket's level is that least one. */
  lemma {:induction false} LevelExactly(lim: Limits, start: real, rs: seq<Request>, lag: real, ip: string, t: real)
    requires Usable(lim) && start >= 0.0 && InOrder(start, rs, lag) && Clock(start, rs) <= t
    ensures var (m, ds) := DecideForever(lim, rs);
            |ds| == |rs| && IsLeast(lim, rs, ds, ip, Level(lim, Held(lim, m, ip), t), t)
    decreases |rs|
  {
    ForeverOk(lim, start, rs, lag);
    if rs != [] {
      var before, r := rs[..|rs| - 1], rs[|rs| - 1];
      var (m, ds) := DecideForever(lim, before);
      var ok := AllowForever(lim, m, r).1;
      assert rs == before + [r];
      ForeverStep(lim, before, r);
      ForeverOk(lim, start, before, lag);
      ClockAdvances(start, before, lag);
      LevelAfter(lim, m, r, ip, Clock(start, before), t);
      if r.ip == ip && ok {
        LevelExactly(lim, start, before, lag, ip, r.at);
        LeastTakes(lim, before, ds, r, Level(lim, Held(lim, m, ip), r.at), t);
      } else {
        LevelExactly(lim, start, before, lag, ip, t);
        LeastWaits(lim, before, ds, r, ok, ip, Level(lim, Held(lim, m, ip), t), t);
      }
    }
  }

  /** No window that ends with this request would admit more than burst and the tokens that came in. */
  ghost predicate FitsEveryWindow(lim: Limits, rs: seq<Request>, ds: seq<bool>, r: Request)
    requires |rs| == |ds|
  {
    forall j: nat | Admits(rs, ds, r.ip, j) ::
      (Admitted(rs, ds, r.ip, j) + 1) as real <= lim.burst as real + (r.at - rs[j].at)
  }

  lemma LeastOfOne(lim: Limits, rs: seq<Request>, ds: seq<bool>, r: Request, level: real)
    requires Usable(lim) && |rs| == |ds| && IsLeast(lim, rs, ds, r.ip, level, r.at)
    ensures level >= 1.0 <==> FitsEveryWindow(lim, rs, ds, r)
  {
    forall j: nat | Admits(rs, ds, r.ip, j)
      ensures LeftSince(lim, rs, ds, r.ip, j, r.at) >= 1.0
              <==> (Admitted(rs, ds, r.ip, j) + 1) as real <= lim.burst as real + (r.at - rs[j].at)
    {}
  }

  /** A bucket that is never forgotten admits a request exactly when it fits every window since an admitted
      request of its IP: the first request of an IP always is. */
  lemma AdmittedForever(lim: Limits, start: real, rs: seq<Request>, lag: real, r: Request)
    requires Usable(lim) && start >= 0.0 && InOrder(start, rs, lag) && Clock(start, rs) <= r.at
    ensures var (m, ds) := DecideForever(lim, rs);
            |ds| == |rs| && (AllowForever(lim, m, r).1 <==> FitsEveryWindow(lim, rs, ds, r))
  {
    var (m, ds) := DecideForever(lim, rs);
    LevelExactly(lim, start, rs, lag, r.ip, r.at);
    LeastOfOne(lim, rs, ds, r, Level(lim, Held(lim, m, r.ip), r.at));
  }

  /** And so does the limiter that forgets, when its settings are enough. */
  lemma AdmittedExactly(lim: Limits, start: real, rs: seq<Request>, lag: real, r: Request)
    requires Usable(lim) && Enough(lim, lag) && start >= 0.0 && InOrder(start, rs, lag)
    requires Clock(start, rs) <= r.now <= r.at <= r.now + lag
    ensures var (l, ds) := Decide(lim, start, rs);
            |ds| == |rs| && (Allow(lim, l, r).1 <==> FitsEveryWindow(lim, rs, ds, r))
  {
    EvictionInvisible(lim, start, rs, lag);
    AdmittedForever(lim, start, rs, lag, r);
    ClockAdvances(start, rs, lag);
    var l, m := Decide(lim, start, rs).0, DecideForever(lim, rs).0;
    assert Tied(lim, l, m, r.ip, Clock(start, rs));
    AllowStaysTied(lim, l, m, r, lag, Clock(start, rs), r.ip);
  }
}
