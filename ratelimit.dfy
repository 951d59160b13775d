/**
 * The middleware returned by `ratelimit(requests, milliseconds, proxy)`
 * (src/index.js:5-71): per request, resolve the client's identity, evict
 * its old request times and admit or reject it.
 */
module RateLimit {
  import opened Identity
  import opened Proxy
  import opened Window

  /** The factory's arguments, fixed for the life of one limiter. */
  datatype Settings = Settings(requests: int, milliseconds: int, mode: ProxyMode)

  /** All the state the closure keeps: the proxy-inference variables and the bucket map. */
  datatype Limiter = Limiter(proxy: ProxyState, bucket: map<string, seq<int>>)

  /** A fresh limiter: no buckets, socket address in use, nothing seen yet. */
  const Initial := Limiter(InitialProxy, map[])

  /** Admitted requests go on to the next handler; rejected ones get "Ratelimited.". Both carry `req.ip`. */
  datatype Outcome = Admit(ip: string) | Reject(ip: string)

  /** One request at the given time (the value `Date.now()` would return). */
  datatype Arrival = Arrival(req: Request, now: int)

  /** The effect of one request on a limiter. */
  function Step(cfg: Settings, s: Limiter, req: Request, now: int): (r: (Outcome, Limiter))
    ensures r.0.ip in r.1.bucket
    ensures r.0.ip !in s.bucket ==> r.0.Admit? && r.1.bucket[r.0.ip] == [now]
    ensures r.0.ip in s.bucket ==>
      var kept := Kept(s.bucket[r.0.ip], now, cfg.milliseconds);
      && (r.0.Admit? <==> |kept| < cfg.requests)
      && r.1.bucket[r.0.ip] == kept + (if r.0.Admit? then [now] else [])
    ensures r.1.proxy != s.proxy ==> cfg.mode == Auto && r.0.ip == req.remoteAddress
  {
    var res := Resolve(cfg.mode, s.proxy, req);
    var d := Gate(cfg.requests, cfg.milliseconds, s.bucket, res.ip, now);
    (if d.admitted then Admit(res.ip) else Reject(res.ip), Limiter(res.proxy, d.bucket))
  }

  /**
   * What holds of every state a limiter reaches: outside adaptive mode the
   * proxy-inference variables keep their initial values, the repeat count is
   * never negative and no bucket holds more than `Cap(requests)` times.
   */
  ghost predicate Invariant(cfg: Settings, s: Limiter)
  {
    && (cfg.mode != Auto ==> s.proxy == InitialProxy)
    && s.proxy.same >= 0
    && Bounded(cfg.requests, s.bucket)
  }

  /** A fresh limiter satisfies the invariant. */
  lemma InitialInvariant(cfg: Settings)
    ensures Invariant(cfg, Initial)
  {
  }

  /** Every request preserves the invariant. */
  lemma StepPreservesInvariant(cfg: Settings, s: Limiter, req: Request, now: int)
    requires Invariant(cfg, s)
    ensures Invariant(cfg, Step(cfg, s, req, now).1)
  {
  }

  /**
   * A request is identified as proxy resolution says, and changes only its
   * own client's bucket: afterwards that client has one, and every other
   * client's bucket is as it was.
   */
  lemma StepIsolation(cfg: Settings, s: Limiter, req: Request, now: int)
    ensures var (o, t) := Step(cfg, s, req, now);
      && o.ip == Resolve(cfg.mode, s.proxy, req).ip
      && t.bucket.Keys == s.bucket.Keys + {o.ip}
      && forall other :: other in s.bucket && other != o.ip ==> t.bucket[other] == s.bucket[other]
  {
  }

  /**
   * Outside adaptive mode the proxy-inference variables never change, and a
   * request of a reachable limiter is identified by the socket address under
   * `Distrust` and by the header under `Trust`.
   */
  lemma FixedModes(cfg: Settings, s: Limiter, req: Request, now: int)
    requires Invariant(cfg, s) && cfg.mode != Auto
    ensures Step(cfg, s, req, now).1.proxy == InitialProxy
    ensures cfg.mode == Distrust ==> Step(cfg, s, req, now).0.ip == req.remoteAddress
    ensures cfg.mode == Trust ==> Step(cfg, s, req, now).0.ip == ForwardedClient(req.forwardedFor)
  {
  }

  /** The outcomes of a series of requests, in order, and the final state. */
  function Run(cfg: Settings, s: Limiter, arrivals: seq<Arrival>): (r: (seq<Outcome>, Limiter))
    ensures |r.0| == |arrivals|
    decreases |arrivals|
  {
    if arrivals == [] then ([], s)
    else
      var prev := Run(cfg, s, arrivals[..|arrivals| - 1]);
      var a := arrivals[|arrivals| - 1];
      var step := Step(cfg, prev.1, a.req, a.now);
      (prev.0 + [step.0], step.1)
  }

  /** The requests of a series of arrivals. */
  function Requests(arrivals: seq<Arrival>): (reqs: seq<Request>)
    ensures |reqs| == |arrivals|
    ensures forall i :: 0 <= i < |arrivals| ==> reqs[i] == arrivals[i].req
  {
    seq(|arrivals|, i requires 0 <= i < |arrivals| => arrivals[i].req)
  }

  /** Every state a series of requests reaches from a valid one is valid. */
  lemma {:induction false} RunPreservesInvariant(cfg: Settings, s: Limiter, arrivals: seq<Arrival>)
    requires Invariant(cfg, s)
    ensures Invariant(cfg, Run(cfg, s, arrivals).1)
    decreases |arrivals|
  {
    if arrivals != [] {
      var prev := Run(cfg, s, arrivals[..|arrivals| - 1]);
      var a := arrivals[|arrivals| - 1];
      RunPreservesInvariant(cfg, s, arrivals[..|arrivals| - 1]);
      StepPreservesInvariant(cfg, prev.1, a.req, a.now);
    }
  }

  /**
   * The identities a series of requests gets, and where proxy inference ends
   * up, depend on the requests alone, never on times or buckets: they are
   * those of `ResolveAll`, so the proxy lemmas carry over to the limiter.
   */
  lemma {:induction false} RunIdentities(cfg: Settings, s: Limiter, arrivals: seq<Arrival>)
    ensures var r := Run(cfg, s, arrivals);
      var p := ResolveAll(cfg.mode, s.proxy, Requests(arrivals));
      && r.1.proxy == p.1
      && forall i :: 0 <= i < |arrivals| ==> r.0[i].ip == p.0[i]
    decreases |arrivals|
  {
    if arrivals != [] {
      var n := |arrivals|;
      var front := arrivals[..n - 1];
      RunIdentities(cfg, s, front);
      assert Requests(arrivals)[..n - 1] == Requests(front);
      var r := Run(cfg, s, arrivals);
      var p := ResolveAll(cfg.mode, s.proxy, Requests(arrivals));
      forall i | 0 <= i < n ensures r.0[i].ip == p.0[i] {
        if i < n - 1 {
          assert r.0[i] == Run(cfg, s, front).0[i];
          assert p.0[i] == ResolveAll(cfg.mode, s.proxy, Requests(front)).0[i];
        }
      }
    }
  }

  /** The request times of a series of arrivals. */
  function Times(arrivals: seq<Arrival>): (times: seq<int>)
    ensures |times| == |arrivals|
    ensures forall i :: 0 <= i < |arrivals| ==> times[i] == arrivals[i].now
  {
    seq(|arrivals|, i requires 0 <= i < |arrivals| => arrivals[i].now)
  }

  /**
   * In any proxy mode, requests that all resolve to one identity `a` are
   * decided by `a`'s window alone: the limiter's outcomes and buckets are
   * those of `GateRun` for `a` at the requests' times.
   */
  lemma {:induction false} OneClientRun(cfg: Settings, s: Limiter, arrivals: seq<Arrival>, a: string)
    requires forall i :: 0 <= i < |arrivals| ==> ResolveAll(cfg.mode, s.proxy, Requests(arrivals)).0[i] == a
    ensures var r := Run(cfg, s, arrivals);
      var g := GateRun(cfg.requests, cfg.milliseconds, s.bucket, a, Times(arrivals));
      && r.1.bucket == g.1
      && forall i :: 0 <= i < |arrivals| ==> r.0[i] == if g.0[i] then Admit(a) else Reject(a)
    decreases |arrivals|
  {
    if arrivals != [] {
      var n := |arrivals|;
      var front := arrivals[..n - 1];
      var ids := ResolveAll(cfg.mode, s.proxy, Requests(arrivals));
      assert Requests(arrivals)[..n - 1] == Requests(front);
      var idsFront := ResolveAll(cfg.mode, s.proxy, Requests(front));
      forall i | 0 <= i < n - 1 ensures idsFront.0[i] == a {
        assert idsFront.0[i] == ids.0[i];
      }
      OneClientRun(cfg, s, front, a);
      var prev := Run(cfg, s, front);
      var last := arrivals[n - 1];
      var gFront := GateRun(cfg.requests, cfg.milliseconds, s.bucket, a, Times(front));
      assert Requests(arrivals)[n - 1] == last.req;
      assert Resolve(cfg.mode, prev.1.proxy, last.req).ip == a by {
        RunIdentities(cfg, s, front);
        assert ids.0[n - 1] == Resolve(cfg.mode, idsFront.1, last.req).ip;
      }
      assert Times(arrivals)[..n - 1] == Times(front);
      assert Times(arrivals)[n - 1] == last.now;
      var d := Gate(cfg.requests, cfg.milliseconds, gFront.1, a, last.now);
      var r := Run(cfg, s, arrivals);
      var g := GateRun(cfg.requests, cfg.milliseconds, s.bucket, a, Times(arrivals));
      assert g == (gFront.0 + [d.admitted], d.bucket);
      assert r.1.bucket == d.bucket;
      assert r.0 == prev.0 + [if d.admitted then Admit(a) else Reject(a)];
      forall i | 0 <= i < n ensures r.0[i] == if g.0[i] then Admit(a) else Reject(a) {
        if i < n - 1 {
          assert r.0[i] == prev.0[i];
          assert g.0[i] == gFront.0[i];
        }
      }
    }
  }

  /**
   * Counting in one window, end to end and in any proxy mode: a new
   * identity whose requests all fall within one window of each other has
   * its first `Cap(requests)` requests admitted and every later one rejected.
   */
  lemma OneClientWithinWindow(cfg: Settings, s: Limiter, arrivals: seq<Arrival>, a: string)
    requires a !in s.bucket
    requires forall i :: 0 <= i < |arrivals| ==> ResolveAll(cfg.mode, s.proxy, Requests(arrivals)).0[i] == a
    requires forall i, j :: 0 <= i < j < |arrivals| ==> arrivals[j].now - arrivals[i].now <= cfg.milliseconds
    ensures forall k :: 0 <= k < |arrivals| ==>
      Run(cfg, s, arrivals).0[k] == if k < Cap(cfg.requests) then Admit(a) else Reject(a)
  {
    OneClientRun(cfg, s, arrivals, a);
    GateRunWithinWindow(cfg.requests, cfg.milliseconds, s.bucket, a, Times(arrivals));
  }

  /**
   * The limiter object: the factory's arguments as constants, and the
   * closure's `bucket` map and three `let` variables as fields.
   */
  class RateLimiter {
    const requests: int
    const milliseconds: int
    const proxy: ProxyMode
    var bucket: map<string, seq<int>>
    var useSocketRemoteAddress: bool
    var socketRemoteAddress: JsValue
    var sameRemoteAddresses: int

    function Config(): Settings
    {
      Settings(requests, milliseconds, proxy)
    }

    ghost function State(): Limiter
      reads this
    {
      Limiter(ProxyState(useSocketRemoteAddress, socketRemoteAddress, sameRemoteAddresses), bucket)
    }

    ghost predicate Valid()
      reads this
    {
      Invariant(Config(), State())
    }

    /** `ratelimit(requests, milliseconds, proxy)`: a limiter with no history (src/index.js:5-12). */
    constructor (requests: int, milliseconds: int, proxy: ProxyMode)
      ensures Config() == Settings(requests, milliseconds, proxy)
      ensures State() == Initial
      ensures Valid()
    {
      this.requests := requests;
      this.milliseconds := milliseconds;
      this.proxy := proxy;
      bucket := map[];
      useSocketRemoteAddress := true;
      socketRemoteAddress := Null;
      sameRemoteAddresses := 0;
    }

    /**
     * Handle one request arriving at `now`: the returned outcome and the new
     * state are those of `Step`, the invariant is kept, and only the
     * request's own client's bucket changes.
     */
    method Handle(req: Request, now: int) returns (out: Outcome)
      requires Valid()
      modifies this
      ensures Valid()
      ensures (out, State()) == Step(Config(), old(State()), req, now)
      ensures bucket.Keys == old(bucket).Keys + {out.ip}
      ensures forall other :: other in old(bucket) && other != out.ip ==> bucket[other] == old(bucket)[other]
    {
      ghost var before := State();
      var ip: string;
      if proxy != Trust && useSocketRemoteAddress {
        if proxy == Auto {
          if req.comparedAddress == socketRemoteAddress {
            sameRemoteAddresses := sameRemoteAddresses + 1;
          } else {
            sameRemoteAddresses := 0;
            socketRemoteAddress := req.comparedAddress;
          }
          if sameRemoteAddresses > SameSocketAddressLimit {
            useSocketRemoteAddress := false;
          }
        }
        ip := req.remoteAddress;
      } else {
        ip := ForwardedClient(req.forwardedFor);
      }
      ghost var resolved := State().proxy;
      assert Resolve(proxy, before.proxy, req) == Resolution(ip, resolved);

      if ip in bucket {
        var kept := Evict(bucket[ip], now, milliseconds);
        if |kept| < requests {
          bucket := bucket[ip := kept + [now]];
          out := Admit(ip);
        } else {
          bucket := bucket[ip := kept];
          out := Reject(ip);
        }
      } else {
        bucket := bucket[ip := [now]];
        out := Admit(ip);
      }
      StepPreservesInvariant(Config(), before, req, now);
    }
  }
}
