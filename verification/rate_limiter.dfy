/** The rate limiter that forgets idle visitors, against one that never forgets. The model counts time
    in tokens: a clock reading of t seconds is rate * t, so one unit of time brings one token. */
module RateLimiting {
  import opened Domain

  /** RateLimiterConfig, in seconds and requests per second. */
  datatype Config = Config(requestsPerSecond: real, burst: int, cleanupInterval: real, ttl: real)

  /** NormalizeRateLimiterConfig: every setting that makes no sense gets its default. */
  function Normalize(cfg: Config): (r: Config)
    ensures r.requestsPerSecond > 0.0 && r.burst > 0 && r.cleanupInterval > 0.0 && r.ttl > 0.0
    ensures cfg.requestsPerSecond > 0.0 && cfg.burst > 0 && cfg.cleanupInterval > 0.0 && cfg.ttl > 0.0 ==> r == cfg
    ensures cfg.requestsPerSecond <= 0.0 && cfg.burst <= 0 && cfg.cleanupInterval <= 0.0 && cfg.ttl <= 0.0
            ==> r == Config(10.0, 20, 60.0, 300.0)
  {
    Config(if cfg.requestsPerSecond <= 0.0 then 10.0 else cfg.requestsPerSecond,
           if cfg.burst <= 0 then 20 else cfg.burst,
           if cfg.cleanupInterval <= 0.0 then 60.0 else cfg.cleanupInterval,
           if cfg.ttl <= 0.0 then 300.0 else cfg.ttl)
  }

  /** The same settings with time counted in tokens. */
  datatype Limits = Limits(burst: int, cleanupInterval: real, ttl: real)

  predicate Usable(lim: Limits) {
    lim.burst > 0 && lim.cleanupInterval > 0.0 && lim.ttl > 0.0
  }

  /** A time in seconds, counted in tokens. */
  function Tokens(cfg: Config, seconds: real): real {
    cfg.requestsPerSecond * seconds
  }

  function InTokens(cfg: Config): Limits {
    Limits(cfg.burst, Tokens(cfg, cfg.cleanupInterval), Tokens(cfg, cfg.ttl))
  }

  // ----- one token bucket (the limiter of golang.org/x/time/rate) -----

  datatype Bucket = Bucket(tokens: real, last: real)

  function Fresh(lim: Limits): Bucket {
    Bucket(lim.burst as real, 0.0)
  }

  function Level(lim: Limits, b: Bucket, t: real): real {
    var full := if t < b.last then b.tokens else b.tokens + (t - b.last);
    if full > lim.burst as real then lim.burst as real else full
  }

  /** AllowN(t, 1): a refused call changes nothing. */
  function TakeToken(lim: Limits, b: Bucket, t: real): (Bucket, bool) {
    var level := Level(lim, b, t);
    if level >= 1.0 then (Bucket(level - 1.0, t), true) else (b, false)
  }

  // ----- the limiter -----

  datatype Visitor = Visitor(bucket: Bucket, lastSeen: real)
  datatype Limiter = Limiter(visitors: map<string, Visitor>, lastCleanup: real)

  /** One request: the clock as Allow reads it first, and as the bucket reads it after that. */
  datatype Request = Request(ip: string, now: real, at: real)

  function Cleaned(lim: Limits, l: Limiter, now: real): Limiter {
    if now - l.lastCleanup < lim.cleanupInterval then l
    else Limiter(map ip | ip in l.visitors && now - l.visitors[ip].lastSeen <= lim.ttl :: l.visitors[ip], now)
  }

  function Allow(lim: Limits, l: Limiter, r: Request): (Limiter, bool) {
    var kept := Cleaned(lim, l, r.now);
    var (bucket, ok) := TakeToken(lim, if r.ip in kept.visitors then kept.visitors[r.ip].bucket else Fresh(lim), r.at);
    (kept.(visitors := kept.visitors[r.ip := Visitor(bucket, r.now)]), ok)
  }

  /** The limiter and its decisions after some requests. */
  function Decide(lim: Limits, start: real, rs: seq<Request>): (Limiter, seq<bool>)
    decreases |rs|
  {
    if rs == [] then (Limiter(map[], start), []) else
      var (l, ds) := Decide(lim, start, rs[..|rs| - 1]);
      var (l', ok) := Allow(lim, l, rs[|rs| - 1]);
      (l', ds + [ok])
  }

  // ----- the limiter that never forgets -----

  function Held(lim: Limits, m: map<string, Bucket>, ip: string): Bucket {
    if ip in m then m[ip] else Fresh(lim)
  }

  function AllowForever(lim: Limits, m: map<string, Bucket>, r: Request): (map<string, Bucket>, bool) {
    var (bucket, ok) := TakeToken(lim, Held(lim, m, r.ip), r.at);
    (m[r.ip := bucket], ok)
  }

  function DecideForever(lim: Limits, rs: seq<Request>): (map<string, Bucket>, seq<bool>) {
    if rs == [] then (map[], []) else
      var (m, ds) := DecideForever(lim, rs[..|rs| - 1]);
      var (m', ok) := AllowForever(lim, m, rs[|rs| - 1]);
      (m', ds + [ok])
  }

  function Clock(start: real, rs: seq<Request>): real {
    if rs == [] then start else rs[|rs| - 1].at
  }

  /** Requests handled one after another on a clock that never goes back, with at most `lag` between the
      two readings of one request. */
  predicate InOrder(start: real, rs: seq<Request>, lag: real)
    decreases |rs|
  {
    rs == [] ||
    (var r, before := rs[|rs| - 1], rs[..|rs| - 1];
     InOrder(start, before, lag) && Clock(start, before) <= r.now <= r.at <= r.now + lag)
  }

  // ----- when forgetting cannot be noticed -----

  /** Every visitor that is forgotten has a full bucket again. */
  predicate Enough(lim: Limits, lag: real) {
    lim.ttl >= lim.burst as real + (if lag < 1.0 then lag else 1.0) && lim.ttl >= lag + 1.0
  }

  /** When the clock is read once this is rate * ttl >= burst. */
  lemma EnoughWithoutLag(cfg: Config)
    requires cfg.burst > 0
    ensures Enough(InTokens(cfg), Tokens(cfg, 0.0)) <==> cfg.requestsPerSecond * cfg.ttl >= cfg.burst as real
  {
    assert Tokens(cfg, 0.0) == 0.0;
  }

  predicate BucketOk(lim: Limits, b: Bucket, clock: real) {
    0.0 <= b.tokens <= lim.burst as real && 0.0 <= b.last <= clock
  }

  predicate FullBy(lim: Limits, b: Bucket, t: real) {
    b.tokens + (t - b.last) >= lim.burst as real
  }

  /** A visitor seen at `now` has a full bucket again when it may be forgotten. */
  lemma FullWhenForgotten(lim: Limits, b: Bucket, now: real, at: real, lag: real)
    requires Usable(lim) && Enough(lim, lag) && BucketOk(lim, b, now) && now <= at <= now + lag
    ensures FullBy(lim, TakeToken(lim, b, at).0, now + lim.ttl)
  {}

  /** What ties the two limiters together at one IP: the same bucket, or a forgotten one that is full. */
  predicate Tied(lim: Limits, l: Limiter, m: map<string, Bucket>, ip: string, clock: real) {
    && (ip in m ==> BucketOk(lim, m[ip], clock))
    && (ip in l.visitors ==>
          ip in m && m[ip] == l.visitors[ip].bucket && l.visitors[ip].lastSeen <= clock
          && FullBy(lim, m[ip], l.visitors[ip].lastSeen + lim.ttl))
    && (ip in m && ip !in l.visitors ==> FullBy(lim, m[ip], clock))
  }

  lemma CleanedStaysTied(lim: Limits, l: Limiter, m: map<string, Bucket>, ip: string, clock: real, now: real)
    requires Usable(lim) && Tied(lim, l, m, ip, clock) && clock <= now
    ensures Tied(lim, Cleaned(lim, l, now), m, ip, now)
  {}

  /** The bucket a request meets has the same level in both. */
  lemma SameBucket(lim: Limits, kept: Limiter, m: map<string, Bucket>, r: Request)
    requires Usable(lim) && Tied(lim, kept, m, r.ip, r.now) && 0.0 <= r.now <= r.at
    ensures TakeToken(lim, if r.ip in kept.visitors then kept.visitors[r.ip].bucket else Fresh(lim), r.at)
            == TakeToken(lim, Held(lim, m, r.ip), r.at)
  {}

  lemma AllowStaysTied(lim: Limits, l: Limiter, m: map<string, Bucket>, r: Request, lag: real, clock: real, ip: string)
    requires Usable(lim) && Enough(lim, lag) && 0.0 <= clock <= r.now <= r.at <= r.now + lag
    requires Tied(lim, l, m, r.ip, clock) && Tied(lim, l, m, ip, clock)
    ensures Allow(lim, l, r).1 == AllowForever(lim, m, r).1
    ensures Tied(lim, Allow(lim, l, r).0, AllowForever(lim, m, r).0, ip, r.at)
  {
    CleanedStaysTied(lim, l, m, r.ip, clock, r.now);
    CleanedStaysTied(lim, l, m, ip, clock, r.now);
    SameBucket(lim, Cleaned(lim, l, r.now), m, r);
    if ip == r.ip {
      FullWhenForgotten(lim, Held(lim, m, ip), r.now, r.at, lag);
    }
  }

  lemma {:induction false} ClockAdvances(start: real, rs: seq<Request>, lag: real)
    requires InOrder(start, rs, lag)
    ensures Clock(start, rs) >= start
    decreases |rs|
  {
    if rs != [] {
      ClockAdvances(start, rs[..|rs| - 1], lag);
    }
  }

  /** Eviction is invisible: with enough ttl every decision is that of a bucket per IP never forgotten. */
  lemma {:induction false} EvictionInvisible(lim: Limits, start: real, rs: seq<Request>, lag: real)
    requires Usable(lim) && Enough(lim, lag) && start >= 0.0 && InOrder(start, rs, lag)
    ensures Decide(lim, start, rs).1 == DecideForever(lim, rs).1
    ensures forall ip :: Tied(lim, Decide(lim, start, rs).0, DecideForever(lim, rs).0, ip, Clock(start, rs))
    decreases |rs|
  {
    if rs != [] {
      var before, r := rs[..|rs| - 1], rs[|rs| - 1];
      EvictionInvisible(lim, start, before, lag);
      ClockAdvances(start, before, lag);
      var l, m, clock := Decide(lim, start, before).0, DecideForever(lim, before).0, Clock(start, before);
      assert Tied(lim, l, m, r.ip, clock);
      forall ip ensures Tied(lim, Decide(lim, start, rs).0, DecideForever(lim, rs).0, ip, Clock(start, rs)) {
        assert Tied(lim, l, m, ip, clock);
        AllowStaysTied(lim, l, m, r, lag, clock, ip);
      }
      AllowStaysTied(lim, l, m, r, lag, clock, r.ip);
    }
  }

  // ----- how many requests a window admits -----

  /** The requests of one IP admitted from number `from` on. */
  function Admitted(rs: seq<Request>, ds: seq<bool>, ip: string, from: nat): nat
    requires |rs| == |ds|
    decreases |rs|
  {
    if |rs| <= from then 0 else
      var n := |rs| - 1;
      Admitted(rs[..n], ds[..n], ip, from) + if rs[n].ip == ip && ds[n] then 1 else 0
  }

  lemma {:induction false} ForeverOk(lim: Limits, start: real, rs: seq<Request>, lag: real)
    requires Usable(lim) && start >= 0.0 && InOrder(start, rs, lag)
    ensures |DecideForever(lim, rs).1| == |rs|
    ensures forall ip | ip in DecideForever(lim, rs).0 :: BucketOk(lim, DecideForever(lim, rs).0[ip], Clock(start, rs))
    decreases |rs|
  {
    if rs != [] {
      ForeverOk(lim, start, rs[..|rs| - 1], lag);
      ClockAdvances(start, rs[..|rs| - 1], lag);
    }
  }

  /** A token is worth one admitted request, and the level rises by at most the time that passes. */
  lemma OneRequest(lim: Limits, m: map<string, Bucket>, r: Request, ip: string, clock: real, t: real)
    requires Usable(lim) && 0.0 <= clock <= t <= r.at && (ip in m ==> BucketOk(lim, m[ip], clock))
    ensures var (m', ok) := AllowForever(lim, m, r);
            Level(lim, Held(lim, m', ip), r.at) + (if r.ip == ip && ok then 1.0 else 0.0)
            <= Level(lim, Held(lim, m, ip), t) + (r.at - t)
  {}

  lemma ForeverLast(lim: Limits, rs: seq<Request>, ip: string, from: nat)
    requires rs != [] && |DecideForever(lim, rs[..|rs| - 1]).1| == |rs| - 1 && from < |rs|
    ensures var n := |rs| - 1;
            var (m, ds) := DecideForever(lim, rs[..n]);
            && |DecideForever(lim, rs).1| == |rs| && DecideForever(lim, rs).0 == AllowForever(lim, m, rs[n]).0
            && Admitted(rs, DecideForever(lim, rs).1, ip, from)
               == Admitted(rs[..n], ds, ip, from) + if rs[n].ip == ip && AllowForever(lim, m, rs[n]).1 then 1 else 0
  {
    assert DecideForever(lim, rs).1[..|rs| - 1] == DecideForever(lim, rs[..|rs| - 1]).1;
  }

  /** What the requests from number `from` on have used up and what is left of the bucket are covered by
      a full bucket and what came in since. */
  lemma {:induction false} Window(lim: Limits, start: real, rs: seq<Request>, lag: real, ip: string, from: nat)
    requires Usable(lim) && start >= 0.0 && InOrder(start, rs, lag) && from < |rs|
    ensures |DecideForever(lim, rs).1| == |rs|
    ensures Admitted(rs, DecideForever(lim, rs).1, ip, from) as real
            + Level(lim, Held(lim, DecideForever(lim, rs).0, ip), Clock(start, rs))
            <= lim.burst as real + (Clock(start, rs) - rs[from].at)
    decreases |rs|
  {
    var n := |rs| - 1;
    var before, clock := rs[..n], Clock(start, rs[..n]);
    ForeverOk(lim, start, before, lag);
    ClockAdvances(start, before, lag);
    ForeverLast(lim, rs, ip, from);
    var m := DecideForever(lim, before).0;
    if from == n {
      OneRequest(lim, m, rs[n], ip, clock, rs[n].at);
    } else {
      Window(lim, start, before, lag, ip, from);
      OneRequest(lim, m, rs[n], ip, clock, clock);
    }
  }

  /** In any window of the requests an IP is admitted at most burst + T times, T being the time, counted
      in tokens, between the first and the last request of the window. */
  lemma WindowBound(lim: Limits, start: real, rs: seq<Request>, lag: real, ip: string, from: nat)
    requires Usable(lim) && Enough(lim, lag) && start >= 0.0 && InOrder(start, rs, lag) && from < |rs|
    ensures |Decide(lim, start, rs).1| == |rs|
    ensures Admitted(rs, Decide(lim, start, rs).1, ip, from) as real
            <= lim.burst as real + (rs[|rs| - 1].at - rs[from].at)
  {
    EvictionInvisible(lim, start, rs, lag);
    ForeverOk(lim, start, rs, lag);
    ClockAdvances(start, rs, lag);
    Window(lim, start, rs, lag, ip, from);
  }

  // ----- when it can -----

  function Repeat(r: Request, k: nat): seq<Request> {
    seq(k, _ => r)
  }

  lemma RepeatLast(before: seq<Request>, r: Request, k: nat)
    requires k > 0
    ensures var rs := before + Repeat(r, k); rs[..|rs| - 1] == before + Repeat(r, k - 1) && rs[|rs| - 1] == r
  {}

  lemma {:induction false} RepeatInOrder(start: real, before: seq<Request>, ip: string, t: real, k: nat, lag: real)
    requires InOrder(start, before, lag) && Clock(start, before) <= t && lag >= 0.0
    ensures InOrder(start, before + Repeat(Request(ip, t, t), k), lag)
    ensures k > 0 ==> Clock(start, before + Repeat(Request(ip, t, t), k)) == t
  {
    if k == 0 {
      assert before + Repeat(Request(ip, t, t), 0) == before;
    } else {
      RepeatLast(before, Request(ip, t, t), k);
      RepeatInOrder(start, before, ip, t, k - 1, lag);
    }
  }

  /** k requests at one time use up k tokens of a full bucket. */
  lemma {:induction false} Drained(lim: Limits, start: real, ip: string, t: real, k: nat)
    requires Usable(lim) && 0.0 <= start <= t < start + lim.cleanupInterval && 1 <= k <= lim.burst
    ensures var b := Bucket((lim.burst - k) as real, t);
            && Decide(lim, start, Repeat(Request(ip, t, t), k)).0 == Limiter(map[ip := Visitor(b, t)], start)
            && DecideForever(lim, Repeat(Request(ip, t, t), k)).0 == map[ip := b]
  {
    var r := Request(ip, t, t);
    var rs := Repeat(r, k);
    assert rs[..k - 1] == Repeat(r, k - 1) && rs[k - 1] == r;
    if k == 1 {
      DrainedFirst(lim, start, r);
      assert Repeat(r, 0) == [];
    } else {
      Drained(lim, start, ip, t, k - 1);
      DrainedNext(lim, start, r, Bucket((lim.burst - k + 1) as real, t));
    }
  }

  lemma DrainedFirst(lim: Limits, start: real, r: Request)
    requires Usable(lim) && 0.0 <= start <= r.now < start + lim.cleanupInterval && r.at == r.now
    ensures var b := Bucket((lim.burst - 1) as real, r.at);
            && Allow(lim, Limiter(map[], start), r).0 == Limiter(map[r.ip := Visitor(b, r.at)], start)
            && AllowForever(lim, map[], r).0 == map[r.ip := b]
  {}

  lemma DrainedNext(lim: Limits, start: real, r: Request, b: Bucket)
    requires Usable(lim) && 0.0 <= start <= r.now < start + lim.cleanupInterval && r.at == r.now
    requires b.last == r.at && 1.0 <= b.tokens <= lim.burst as real
    ensures var b' := Bucket(b.tokens - 1.0, r.at);
            && Allow(lim, Limiter(map[r.ip := Visitor(b, r.at)], start), r).0
                == Limiter(map[r.ip := Visitor(b', r.at)], start)
            && AllowForever(lim, map[r.ip := b], r).0 == map[r.ip := b']
  {}

  /** The next cleanup, at t, forgets a visitor whose bucket is then not yet full. */
  ghost predicate Exposed(lim: Limits, start: real, rs: seq<Request>, ip: string, t: real) {
    var (l, m) := (Decide(lim, start, rs).0, DecideForever(lim, rs).0);
    && ip in l.visitors && ip in m && t - l.lastCleanup >= lim.cleanupInterval && t - l.visitors[ip].lastSeen > lim.ttl
    && 0.0 <= m[ip].last <= t && Level(lim, m[ip], t) < lim.burst as real
  }

  /** After k requests at once: the one limiter has admitted them all, the other has fewer tokens left. */
  ghost predicate Flooded(lim: Limits, l: Limiter, m: map<string, Bucket>, ip: string, t: real, k: nat) {
    && ip in l.visitors && l.visitors[ip] == Visitor(Bucket((lim.burst - k) as real, t), t) && l.lastCleanup == t
    && ip in m && 0.0 <= m[ip].last <= t
    && (Level(lim, m[ip], t) < (lim.burst - k) as real || Level(lim, m[ip], t) < 1.0)
  }

  lemma FloodFirst(lim: Limits, l: Limiter, m: map<string, Bucket>, ip: string, t: real)
    requires Usable(lim) && t >= 0.0 && ip in l.visitors && ip in m
    requires t - l.lastCleanup >= lim.cleanupInterval && t - l.visitors[ip].lastSeen > lim.ttl
    requires 0.0 <= m[ip].last <= t && Level(lim, m[ip], t) < lim.burst as real
    ensures var (l', ok) := Allow(lim, l, Request(ip, t, t));
            var (m', ok') := AllowForever(lim, m, Request(ip, t, t));
            ok && Flooded(lim, l', m', ip, t, 1) && (lim.burst == 1 ==> !ok')
  {
    CleanedAt(lim, l, t, ip);
  }

  lemma FloodNext(lim: Limits, l: Limiter, m: map<string, Bucket>, ip: string, t: real, k: nat)
    requires Usable(lim) && t >= 0.0 && 0 < k < lim.burst && Flooded(lim, l, m, ip, t, k)
    ensures var (l', ok) := Allow(lim, l, Request(ip, t, t));
            var (m', ok') := AllowForever(lim, m, Request(ip, t, t));
            ok && Flooded(lim, l', m', ip, t, k + 1) && (k + 1 == lim.burst ==> !ok')
  {}

  /** The limiter then admits as many requests at once as a full bucket does, the other one fewer. */
  lemma {:induction false} Flood(lim: Limits, start: real, rs: seq<Request>, ip: string, t: real, k: nat)
    requires Usable(lim) && t >= 0.0 && Exposed(lim, start, rs, ip, t) && 1 <= k <= lim.burst
    ensures var all := rs + Repeat(Request(ip, t, t), k);
            var (l, ds) := Decide(lim, start, all);
            var (m, es) := DecideForever(lim, all);
            && Flooded(lim, l, m, ip, t, k)
            && ds != [] && ds[|ds| - 1] && es != [] && (k == lim.burst ==> !es[|es| - 1])
  {
    var r := Request(ip, t, t);
    var before := rs + Repeat(r, k - 1);
    RepeatLast(rs, r, k);
    if k == 1 {
      assert before == rs;
      FloodFirst(lim, Decide(lim, start, rs).0, DecideForever(lim, rs).0, ip, t);
    } else {
      Flood(lim, start, rs, ip, t, k - 1);
      FloodNext(lim, Decide(lim, start, before).0, DecideForever(lim, before).0, ip, t, k - 1);
    }
  }

  lemma ExposedDiffers(lim: Limits, start: real, rs: seq<Request>, lag: real, ip: string, t: real)
    requires Usable(lim) && start >= 0.0 && lag >= 0.0 && InOrder(start, rs, lag) && Clock(start, rs) <= t
    requires Exposed(lim, start, rs, ip, t)
    ensures exists all :: InOrder(start, all, lag) && Decide(lim, start, all).1 != DecideForever(lim, all).1
  {
    ClockAdvances(start, rs, lag);
    Flood(lim, start, rs, ip, t, lim.burst);
    RepeatInOrder(start, rs, ip, t, lim.burst, lag);
    var all := rs + Repeat(Request(ip, t, t), lim.burst);
    assert InOrder(start, all, lag) && Decide(lim, start, all).1 != DecideForever(lim, all).1;
  }

  /** When to start so that `gap` later a cleanup is due and none was due before. */
  function Begin(lim: Limits, start: real, gap: real): real {
    if lim.cleanupInterval > gap then start + lim.cleanupInterval - gap else start
  }

  /** One late reading of the clock takes the token after the ttl has begun to count. */
  lemma LateReading(lim: Limits, start: real, lag: real)
    requires Usable(lim) && start >= 0.0 && lag >= 0.0 && lim.ttl < lag + 1.0
    ensures exists rs :: InOrder(start, rs, lag) && Decide(lim, start, rs).1 != DecideForever(lim, rs).1
  {
    var gap := ((if lim.ttl > lag then lim.ttl else lag) + lag + 1.0) / 2.0;
    var t := Begin(lim, start, gap);
    var rs := [Request("ip", t, t + lag)];
    assert rs[..0] == [] && InOrder(start, [], lag) && Clock(start, []) == start;
    assert Decide(lim, start, []) == (Limiter(map[], start), []) && DecideForever(lim, []) == (map[], []);
    ExposedDiffers(lim, start, rs, lag, "ip", t + gap);
  }

  /** A drained bucket is forgotten before it is full again. */
  lemma ShortTtl(lim: Limits, start: real, lag: real)
    requires Usable(lim) && start >= 0.0 && lag >= 0.0 && lim.ttl < lim.burst as real
    ensures exists rs :: InOrder(start, rs, lag) && Decide(lim, start, rs).1 != DecideForever(lim, rs).1
  {
    var gap := (lim.ttl + lim.burst as real) / 2.0;
    var t := Begin(lim, start, gap);
    var rs := Repeat(Request("ip", t, t), lim.burst);
    Drained(lim, start, "ip", t, lim.burst);
    RepeatInOrder(start, [], "ip", t, lim.burst, lag);
    assert [] + rs == rs;
    ExposedDiffers(lim, start, rs, lag, "ip", t + gap);
  }

  /** After a drain and a late request: the visitor is still there, and one token is gone again. */
  lemma AfterLate(lim: Limits, start: real, t: real, late: Request)
    requires Usable(lim) && 0.0 <= start <= t < start + lim.cleanupInterval
    requires late.ip == "ip" && t <= late.now <= late.at && late.now - t <= lim.ttl && late.at - t >= 1.0
    ensures var rs := Repeat(Request("ip", t, t), lim.burst) + [late];
            var (l, m) := (Decide(lim, start, rs).0, DecideForever(lim, rs).0);
            && "ip" in l.visitors && l.visitors["ip"].lastSeen == late.now && "ip" in m && m["ip"].last == late.at
            && m["ip"].tokens <= late.at - t - 1.0
            && l.lastCleanup == if late.now - start < lim.cleanupInterval then start else late.now
  {
    var drain := Repeat(Request("ip", t, t), lim.burst);
    Drained(lim, start, "ip", t, lim.burst);
    assert (drain + [late])[..lim.burst] == drain;
  }

  lemma LateInOrder(start: real, t: real, burst: nat, late: Request, lag: real)
    requires start <= t && lag >= 0.0 && burst > 0 && t <= late.now <= late.at <= late.now + lag
    ensures var rs := Repeat(Request("ip", t, t), burst) + [late];
            InOrder(start, rs, lag) && Clock(start, rs) == late.at
  {
    var drain := Repeat(Request("ip", t, t), burst);
    RepeatInOrder(start, [], "ip", t, burst, lag);
    assert [] + drain == drain && (drain + [late])[..burst] == drain;
  }

  lemma LateExposed(lim: Limits, start: real, t: real, late: Request, end: real)
    requires Usable(lim) && 0.0 <= start <= t < start + lim.cleanupInterval
    requires late.ip == "ip" && t <= late.now <= late.at <= end && late.now - t <= lim.ttl && late.at - t >= 1.0
    requires end - t - 1.0 < lim.burst as real && end - late.now > lim.ttl
    requires end - start >= lim.cleanupInterval
    requires late.now - start >= lim.cleanupInterval ==> end - late.now >= lim.cleanupInterval
    ensures Exposed(lim, start, Repeat(Request("ip", t, t), lim.burst) + [late], "ip", end)
  {
    AfterLate(lim, start, t, late);
  }

  /** A drained bucket gets one token back, and a late reading takes it. */
  lemma DrainedAndLate(lim: Limits, start: real, lag: real)
    requires Usable(lim) && start >= 0.0 && lag >= 0.0 && lim.ttl >= lim.burst as real && lim.ttl >= lag + 1.0
    requires lim.ttl < lim.burst as real + (if lag < 1.0 then lag else 1.0)
    ensures exists rs :: InOrder(start, rs, lag) && Decide(lim, start, rs).1 != DecideForever(lim, rs).1
  {
    var wait := if lag < 1.0 then 1.0 - lag else 0.0;
    var gap := (lim.ttl + lim.burst as real + 1.0 - wait) / 2.0;
    var t := Begin(lim, start, gap + wait);
    var late := Request("ip", t + wait, t + wait + lag);
    var rs := Repeat(Request("ip", t, t), lim.burst) + [late];
    LateInOrder(start, t, lim.burst, late, lag);
    LateExposed(lim, start, t, late, t + wait + gap);
    ExposedDiffers(lim, start, rs, lag, "ip", t + wait + gap);
  }

  /** Forgetting cannot be noticed exactly when the settings are enough: with any others some requests
      are decided differently. */
  lemma InvisibleIffEnough(lim: Limits, start: real, lag: real)
    requires Usable(lim) && start >= 0.0 && lag >= 0.0
    ensures Enough(lim, lag) <==>
            forall rs | InOrder(start, rs, lag) :: Decide(lim, start, rs).1 == DecideForever(lim, rs).1
  {
    if Enough(lim, lag) {
      forall rs | InOrder(start, rs, lag) ensures Decide(lim, start, rs).1 == DecideForever(lim, rs).1 {
        EvictionInvisible(lim, start, rs, lag);
      }
    } else if lim.ttl < lag + 1.0 {
      LateReading(lim, start, lag);
    } else if lim.ttl < lim.burst as real {
      ShortTtl(lim, start, lag);
    } else {
      DrainedAndLate(lim, start, lag);
    }
  }

  // ----- the limiter in seconds -----

  class IPRateLimiter {
    const cfg: Config
    var visitors: map<string, Visitor>
    var lastCleanup: real

    constructor (cfg: Config, now: real)
      ensures this.cfg == Normalize(cfg) && visitors == map[] && lastCleanup == now
    {
      this.cfg, visitors, lastCleanup := Normalize(cfg), map[], now;
    }

    /** The state with time counted in tokens. */
    ghost function Now(): Limiter
      reads this
    {
      Limiter(AllInTokens(cfg, visitors), Tokens(cfg, lastCleanup))
    }

    method CleanupExpired(now: real)
      requires cfg.requestsPerSecond > 0.0
      modifies this
      ensures Now() == Cleaned(InTokens(cfg), old(Now()), Tokens(cfg, now))
    {
      Later(cfg, now, lastCleanup, cfg.cleanupInterval);
      if now - lastCleanup < cfg.cleanupInterval {
        return;
      }
      ghost var before := visitors;
      var rest := visitors.Keys;
      while rest != {}
        invariant lastCleanup == old(lastCleanup) && rest <= visitors.Keys
        invariant forall ip | ip in visitors :: ip in before && visitors[ip] == before[ip]
        invariant forall ip | ip in before && ip !in rest :: ip in visitors <==> now - before[ip].lastSeen <= cfg.ttl
        decreases rest
      {
        var ip := Choose(rest);
        if now - visitors[ip].lastSeen > cfg.ttl {
          visitors := visitors - {ip};
        }
        rest := rest - {ip};
      }
      CleanupKeeps(cfg, before, visitors, Tokens(cfg, lastCleanup), now);
      lastCleanup := now;
    }

    method AllowRequest(ip: string, now: real, at: real) returns (ok: bool)
      requires cfg.requestsPerSecond > 0.0
      modifies this
      ensures (Now(), ok) == Allow(InTokens(cfg), old(Now()), Request(ip, Tokens(cfg, now), Tokens(cfg, at)))
    {
      CleanupExpired(now);
      var bucket := if ip in visitors then visitors[ip].bucket else Bucket(cfg.burst as real, 0.0);
      assert BucketInTokens(cfg, Bucket(cfg.burst as real, 0.0)) == Fresh(InTokens(cfg)) by {
        assert Tokens(cfg, 0.0) == 0.0;
      }
      ghost var kept := visitors;
      ok, bucket := TakeOne(bucket, at);
      visitors := visitors[ip := Visitor(bucket, now)];
      assert AllInTokens(cfg, visitors) == AllInTokens(cfg, kept)[ip := VisitorInTokens(cfg, Visitor(bucket, now))];
    }

    /** The bucket's own AllowN(at, 1), in seconds. */
    method TakeOne(bucket: Bucket, at: real) returns (ok: bool, after: Bucket)
      requires cfg.requestsPerSecond > 0.0
      ensures (BucketInTokens(cfg, after), ok) == TakeToken(InTokens(cfg), BucketInTokens(cfg, bucket), Tokens(cfg, at))
    {
      var elapsed := if at < bucket.last then 0.0 else at - bucket.last;
      var tokens := bucket.tokens + cfg.requestsPerSecond * elapsed;
      if tokens > cfg.burst as real {
        tokens := cfg.burst as real;
      }
      LevelInSeconds(cfg, bucket, at);
      ok, after := tokens >= 1.0, bucket;
      if ok {
        after := Bucket(tokens - 1.0, at);
      }
    }
  }

  function BucketInTokens(cfg: Config, b: Bucket): Bucket {
    Bucket(b.tokens, Tokens(cfg, b.last))
  }

  function VisitorInTokens(cfg: Config, v: Visitor): Visitor {
    Visitor(BucketInTokens(cfg, v.bucket), Tokens(cfg, v.lastSeen))
  }

  function AllInTokens(cfg: Config, visitors: map<string, Visitor>): map<string, Visitor> {
    map ip | ip in visitors :: VisitorInTokens(cfg, visitors[ip])
  }

  /** Comparing times in seconds or in tokens is the same. */
  lemma Later(cfg: Config, a: real, b: real, d: real)
    requires cfg.requestsPerSecond > 0.0
    ensures a - b < d <==> Tokens(cfg, a) - Tokens(cfg, b) < Tokens(cfg, d)
    ensures a - b <= d <==> Tokens(cfg, a) - Tokens(cfg, b) <= Tokens(cfg, d)
  {
    assert Tokens(cfg, a) - Tokens(cfg, b) - Tokens(cfg, d) == cfg.requestsPerSecond * (a - b - d);
  }

  lemma LevelInSeconds(cfg: Config, b: Bucket, at: real)
    requires cfg.requestsPerSecond > 0.0
    ensures var full := b.tokens + cfg.requestsPerSecond * (if at < b.last then 0.0 else at - b.last);
            Level(InTokens(cfg), BucketInTokens(cfg, b), Tokens(cfg, at))
                == if full > cfg.burst as real then cfg.burst as real else full
  {
    Later(cfg, at, b.last, 0.0);
    assert Tokens(cfg, 0.0) == 0.0;
    assert Tokens(cfg, at) - Tokens(cfg, b.last) == cfg.requestsPerSecond * (at - b.last);
  }

  lemma CleanedAt(lim: Limits, l: Limiter, now: real, ip: string)
    requires now - l.lastCleanup >= lim.cleanupInterval
    ensures ip in Cleaned(lim, l, now).visitors <==> ip in l.visitors && now - l.visitors[ip].lastSeen <= lim.ttl
    ensures ip in Cleaned(lim, l, now).visitors ==> Cleaned(lim, l, now).visitors[ip] == l.visitors[ip]
  {}

  /** Deleting the visitors idle for more than the ttl, counted in seconds or in tokens. */
  lemma CleanupKeeps(cfg: Config, before: map<string, Visitor>, after: map<string, Visitor>, lastCleanup: real,
      now: real)
    requires cfg.requestsPerSecond > 0.0 && Tokens(cfg, now) - lastCleanup >= InTokens(cfg).cleanupInterval
    requires forall ip | ip in after :: ip in before && after[ip] == before[ip]
    requires forall ip | ip in before :: ip in after <==> now - before[ip].lastSeen <= cfg.ttl
    ensures Limiter(AllInTokens(cfg, after), Tokens(cfg, now))
            == Cleaned(InTokens(cfg), Limiter(AllInTokens(cfg, before), lastCleanup), Tokens(cfg, now))
  {
    var l, t := Limiter(AllInTokens(cfg, before), lastCleanup), Tokens(cfg, now);
    var kept := Cleaned(InTokens(cfg), l, t).visitors;
    forall ip ensures ip in kept <==> ip in after {
      CleanedAt(InTokens(cfg), l, t, ip);
      if ip in before {
        Later(cfg, now, before[ip].lastSeen, cfg.ttl);
        assert l.visitors[ip].lastSeen == Tokens(cfg, before[ip].lastSeen);
      }
    }
    forall ip | ip in after ensures kept[ip] == AllInTokens(cfg, after)[ip] {
      CleanedAt(InTokens(cfg), l, t, ip);
    }
    assert AllInTokens(cfg, after) == kept;
  }
}
