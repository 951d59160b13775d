/**
 * Choosing the client identity between the socket's peer address and the
 * `x-forwarded-for` header, with the adaptive switch that gives up on the
 * socket address once it has repeated too often (src/index.js:9-40).
 */
module Proxy {
  import opened Wrappers
  import opened Identity

  /** More than this many repeats of one socket address mark it as a proxy's (src/index.js:2). */
  const SameSocketAddressLimit: int := 50

  /** The `proxy` option: `null` (the default, adaptive), `true` or `false`. */
  datatype ProxyMode = Auto | Trust | Distrust

  /** A JavaScript value as far as `===` distinguishes it here. */
  datatype JsValue = Null | Undefined | Str(s: string)

  /**
   * What a request offers for identification: the socket's peer address, the
   * value the adaptive check compares (read from a misspelled field in the
   * source, so always `Undefined` there; `Str(remoteAddress)` when spelled
   * as evidently intended) and the `x-forwarded-for` header, if sent.
   */
  datatype Request = Request(remoteAddress: string, comparedAddress: JsValue, forwardedFor: Option<string>)

  /** The three `let` variables of the closure: use the socket address, last address seen, repeat count. */
  datatype ProxyState = ProxyState(useSocket: bool, stored: JsValue, same: int)

  /** The values the closure starts with (src/index.js:10-12). */
  const InitialProxy := ProxyState(true, Null, 0)

  /** The identity chosen for one request and the proxy-inference variables after it. */
  datatype Resolution = Resolution(ip: string, proxy: ProxyState)

  /** The adaptive counter's update for one observed address. */
  function Observe(p: ProxyState, seen: JsValue): (q: ProxyState)
    ensures q.stored == seen
    ensures q.same == if seen == p.stored then p.same + 1 else 0
    ensures q.useSocket <==> p.useSocket && q.same <= SameSocketAddressLimit
  {
    var same := if seen == p.stored then p.same + 1 else 0;
    var stored := if seen == p.stored then p.stored else seen;
    ProxyState(if same > SameSocketAddressLimit then false else p.useSocket, stored, same)
  }

  /** Step 1 of a request: resolve the identity (`!proxy` holds for `null` and `false`). */
  function Resolve(mode: ProxyMode, p: ProxyState, req: Request): (r: Resolution)
    ensures r.ip == req.remoteAddress || r.ip == ForwardedClient(req.forwardedFor)
    ensures r.proxy.useSocket ==> p.useSocket
    ensures r.proxy != p ==> mode == Auto && p.useSocket && r.ip == req.remoteAddress
  {
    if mode != Trust && p.useSocket then
      Resolution(req.remoteAddress, if mode == Auto then Observe(p, req.comparedAddress) else p)
    else
      Resolution(ForwardedClient(req.forwardedFor), p)
  }

  /** Explicit trust always takes the header and leaves the counters alone. */
  lemma TrustUsesHeader(p: ProxyState, req: Request)
    ensures Resolve(Trust, p, req) == Resolution(ForwardedClient(req.forwardedFor), p)
  {
  }

  /** Explicit distrust never touches the counters, and from any reachable state takes the socket address. */
  lemma DistrustUsesSocket(p: ProxyState, req: Request)
    ensures Resolve(Distrust, p, req).proxy == p
    ensures p.useSocket ==> Resolve(Distrust, p, req).ip == req.remoteAddress
  {
  }

  /** Once the socket address is abandoned it is never used again, in any mode. */
  lemma SwitchIsPermanent(mode: ProxyMode, p: ProxyState, req: Request)
    ensures Resolve(mode, p, req).proxy.useSocket ==> p.useSocket
    ensures !p.useSocket ==> Resolve(mode, p, req) == Resolution(ForwardedClient(req.forwardedFor), p)
  {
  }

  /** The request on which the switch happens is still identified by its socket address. */
  lemma FlipRequestUsesSocket(mode: ProxyMode, p: ProxyState, req: Request)
    requires p.useSocket && !Resolve(mode, p, req).proxy.useSocket
    ensures mode == Auto
    ensures Resolve(mode, p, req).ip == req.remoteAddress
  {
  }

  /**
   * While adaptive mode still reads the socket, a repeat of the stored value
   * increments the count, anything else resets it to 0 and becomes the
   * stored value, and the socket is abandoned exactly when the count passes
   * the limit.
   */
  lemma RepeatCounter(p: ProxyState, req: Request)
    requires p.useSocket
    ensures var q := Resolve(Auto, p, req).proxy;
      && q.same == (if req.comparedAddress == p.stored then p.same + 1 else 0)
      && q.stored == req.comparedAddress
      && (q.useSocket <==> q.same <= SameSocketAddressLimit)
  {
  }

  /** The identities of a series of requests, in order, and the final proxy state. */
  function ResolveAll(mode: ProxyMode, p: ProxyState, reqs: seq<Request>): (r: (seq<string>, ProxyState))
    ensures |r.0| == |reqs|
    decreases |reqs|
  {
    if reqs == [] then ([], p)
    else
      var prev := ResolveAll(mode, p, reqs[..|reqs| - 1]);
      var step := Resolve(mode, prev.1, reqs[|reqs| - 1]);
      (prev.0 + [step.ip], step.proxy)
  }

  /**
   * Under explicit distrust, from any state still on the socket, a series of
   * requests all from socket address `a` is identified as `a` throughout, and
   * the proxy state never changes.
   */
  lemma {:induction false} DistrustResolvesToSocket(p: ProxyState, reqs: seq<Request>, a: string)
    requires p.useSocket
    requires forall i :: 0 <= i < |reqs| ==> reqs[i].remoteAddress == a
    ensures ResolveAll(Distrust, p, reqs).1 == p
    ensures forall i :: 0 <= i < |reqs| ==> ResolveAll(Distrust, p, reqs).0[i] == a
    decreases |reqs|
  {
    if reqs != [] {
      DistrustResolvesToSocket(p, reqs[..|reqs| - 1], a);
    }
  }

  /**
   * In adaptive mode, starting fresh, a series of requests that all present
   * one compared value `c` is identified by socket address for the first 52
   * requests (the 52nd raises the count to 51 and flips the switch) and by
   * the header from the 53rd on; the count stops at 51.
   */
  lemma {:induction false} RunOfOneValue(reqs: seq<Request>, c: JsValue)
    requires c != Null
    requires forall i :: 0 <= i < |reqs| ==> reqs[i].comparedAddress == c
    ensures var r := ResolveAll(Auto, InitialProxy, reqs);
      && (reqs != [] ==> r.1.stored == c)
      && (reqs != [] ==> r.1.same == if |reqs| <= 52 then |reqs| - 1 else 51)
      && (r.1.useSocket <==> |reqs| < 52)
      && forall i :: 0 <= i < |reqs| ==>
           r.0[i] == if i < 52 then reqs[i].remoteAddress else ForwardedClient(reqs[i].forwardedFor)
    decreases |reqs|
  {
    if reqs != [] {
      var front := reqs[..|reqs| - 1];
      RunOfOneValue(front, c);
    }
  }

  /**
   * As the source is written the compared value is always `undefined`: a
   * server with no proxy, whose clients all differ, still abandons the socket
   * address after 52 requests and from then on identifies every client by a
   * header the client itself controls.
   */
  lemma LiteralDistinctClientsFlip(reqs: seq<Request>)
    requires |reqs| > 52
    requires forall i :: 0 <= i < |reqs| ==> reqs[i].comparedAddress == Undefined
    requires forall i, j :: 0 <= i < j < |reqs| ==> reqs[i].remoteAddress != reqs[j].remoteAddress
    ensures !ResolveAll(Auto, InitialProxy, reqs).1.useSocket
    ensures ResolveAll(Auto, InitialProxy, reqs).0[52] == ForwardedClient(reqs[52].forwardedFor)
  {
    RunOfOneValue(reqs, Undefined);
  }

  /**
   * With the compared value being the socket address, as intended, requests
   * whose socket addresses alternate never trip the switch: every one of them
   * is identified by its socket address.
   */
  lemma {:induction false} IntendedDistinctClientsKeepSocket(reqs: seq<Request>)
    requires forall i :: 0 <= i < |reqs| ==> reqs[i].comparedAddress == Str(reqs[i].remoteAddress)
    requires forall i :: 0 < i < |reqs| ==> reqs[i - 1].remoteAddress != reqs[i].remoteAddress
    ensures var r := ResolveAll(Auto, InitialProxy, reqs);
      && r.1.useSocket && r.1.same == 0
      && (reqs != [] ==> r.1.stored == Str(reqs[|reqs| - 1].remoteAddress))
      && forall i :: 0 <= i < |reqs| ==> r.0[i] == reqs[i].remoteAddress
    decreases |reqs|
  {
    if reqs != [] {
      var front := reqs[..|reqs| - 1];
      IntendedDistinctClientsKeepSocket(front);
    }
  }
}
