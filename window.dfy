/**
 * One client's sliding window: evicting request times that fell out of the
 * window, and admitting or rejecting a request against the limit
 * (src/index.js:46-67).
 */
module Window {

  /** A request made at time `t` still counts at time `now` for a window of `ms` milliseconds. */
  predicate InWindow(t: int, now: int, ms: int)
  {
    now - t <= ms
  }

  /** The times of `b` that are still in the window at `now`, in their order in `b`. */
  function Kept(b: seq<int>, now: int, ms: int): (r: seq<int>)
    ensures |r| <= |b|
    decreases |b|
  {
    if b == [] then []
    else
      var last := b[|b| - 1];
      Kept(b[..|b| - 1], now, ms) + (if InWindow(last, now, ms) then [last] else [])
  }

  /**
   * `a` is `b` with some elements left out: a subsequence, elements kept in
   * their relative order.
   */
  predicate IsSubsequence(a: seq<int>, b: seq<int>)
    decreases |b|
  {
    || a == []
    || (&& b != []
        && (|| IsSubsequence(a, b[..|b| - 1])
            || (a[|a| - 1] == b[|b| - 1] && IsSubsequence(a[..|a| - 1], b[..|b| - 1]))))
  }

  /**
   * The eviction loop: walks the bucket by index and splices out every time
   * older than the window, staying at the same index after a splice
   * (src/index.js:50-55).
   */
  method Evict(stored: seq<int>, now: int, ms: int) returns (b: seq<int>)
    ensures b == Kept(stored, now, ms)
  {
    b := stored;
    var i := 0;
    ghost var j := 0;
    while i < |b|
      invariant 0 <= i <= |b| && 0 <= j <= |stored|
      invariant b[..i] == Kept(stored[..j], now, ms)
      invariant b[i..] == stored[j..]
      decreases |b| - i
    {
      assert b[i] == stored[j] by { assert b[i..][0] == stored[j..][0]; }
      assert stored[..j + 1][..j] == stored[..j];
      if now - b[i] > ms {
        assert b[i + 1..] == stored[j + 1..] by { assert b[i + 1..] == b[i..][1..]; }
        b := b[..i] + b[i + 1..];
        assert b[..i] == Kept(stored[..j + 1], now, ms);
        assert b[i..] == stored[j + 1..];
      } else {
        assert b[..i + 1] == b[..i] + [b[i]];
        assert b[i + 1..] == b[i..][1..];
        i := i + 1;
      }
      j := j + 1;
    }
    assert |b[i..]| == 0;
    assert stored[..j] == stored;
  }

  /** After eviction every remaining time is within the window. */
  lemma {:induction false} KeptInWindow(b: seq<int>, now: int, ms: int)
    ensures forall k :: 0 <= k < |Kept(b, now, ms)| ==> InWindow(Kept(b, now, ms)[k], now, ms)
    decreases |b|
  {
    if b != [] {
      KeptInWindow(b[..|b| - 1], now, ms);
    }
  }

  /**
   * Eviction keeps exactly the in-window times: every in-window time as many
   * times as it occurs in `b`, every other time not at all.
   */
  lemma {:induction false} KeptCounts(b: seq<int>, now: int, ms: int, x: int)
    ensures multiset(Kept(b, now, ms))[x] == if InWindow(x, now, ms) then multiset(b)[x] else 0
    decreases |b|
  {
    if b != [] {
      var front := b[..|b| - 1];
      KeptCounts(front, now, ms, x);
      assert b == front + [b[|b| - 1]];
    }
  }

  /** Eviction preserves the relative order of the times it keeps. */
  lemma {:induction false} KeptIsSubsequence(b: seq<int>, now: int, ms: int)
    ensures IsSubsequence(Kept(b, now, ms), b)
    decreases |b|
  {
    if b != [] {
      var front := b[..|b| - 1];
      var k := Kept(b, now, ms);
      KeptIsSubsequence(front, now, ms);
      if InWindow(b[|b| - 1], now, ms) {
        assert k == Kept(front, now, ms) + [b[|b| - 1]];
        assert k[..|k| - 1] == Kept(front, now, ms);
        assert k[|k| - 1] == b[|b| - 1];
      } else {
        assert k == Kept(front, now, ms);
      }
    }
  }

  /** A bucket wholly inside the window loses nothing. */
  lemma {:induction false} KeptAllInWindow(b: seq<int>, now: int, ms: int)
    requires forall k :: 0 <= k < |b| ==> InWindow(b[k], now, ms)
    ensures Kept(b, now, ms) == b
    decreases |b|
  {
    if b != [] {
      var front := b[..|b| - 1];
      KeptAllInWindow(front, now, ms);
      assert b == front + [b[|b| - 1]];
    }
  }

  /** A bucket wholly outside the window is emptied. */
  lemma {:induction false} KeptNoneInWindow(b: seq<int>, now: int, ms: int)
    requires forall k :: 0 <= k < |b| ==> !InWindow(b[k], now, ms)
    ensures Kept(b, now, ms) == []
    decreases |b|
  {
    if b != [] {
      KeptNoneInWindow(b[..|b| - 1], now, ms);
    }
  }

  /** The most a bucket can hold: the limit, but a client's first request is always recorded. */
  function Cap(requests: int): int
  {
    if requests < 1 then 1 else requests
  }

  /** Every bucket holds at most `Cap(requests)` times. */
  ghost predicate Bounded(requests: int, bucket: map<string, seq<int>>)
  {
    forall ip :: ip in bucket ==> |bucket[ip]| <= Cap(requests)
  }

  /** Whether the request is admitted, and the bucket map afterwards. */
  datatype Decision = Decision(admitted: bool, bucket: map<string, seq<int>>)

  /**
   * Steps 2 and 3 of a request: a client without a bucket is admitted and
   * gets the bucket `[now]`; otherwise its bucket is evicted and the request
   * admitted, with `now` appended, when fewer than `requests` times remain,
   * and rejected, leaving the evicted bucket, otherwise. No other client's
   * bucket changes.
   */
  function Gate(requests: int, ms: int, bucket: map<string, seq<int>>, ip: string, now: int): (d: Decision)
    ensures d.bucket.Keys == bucket.Keys + {ip}
    ensures forall other :: other in bucket && other != ip ==> d.bucket[other] == bucket[other]
    ensures ip !in bucket ==> d.admitted && d.bucket[ip] == [now]
    ensures ip in bucket ==>
      && (d.admitted <==> |Kept(bucket[ip], now, ms)| < requests)
      && d.bucket[ip] == Kept(bucket[ip], now, ms) + (if d.admitted then [now] else [])
  {
    if ip in bucket then
      var kept := Kept(bucket[ip], now, ms);
      if |kept| < requests then Decision(true, bucket[ip := kept + [now]])
      else Decision(false, bucket[ip := kept])
    else
      Decision(true, bucket[ip := [now]])
  }

  /** No request makes any bucket exceed `Cap(requests)`. */
  lemma GateBounded(requests: int, ms: int, bucket: map<string, seq<int>>, ip: string, now: int)
    requires Bounded(requests, bucket)
    ensures Bounded(requests, Gate(requests, ms, bucket, ip, now).bucket)
  {
  }

  /**
   * Once every recorded time of a client has left the window, its next
   * request is admitted afresh and its bucket restarts at `[now]`.
   */
  lemma GateAfterWindow(requests: int, ms: int, bucket: map<string, seq<int>>, ip: string, now: int)
    requires requests >= 1 && ip in bucket
    requires forall k :: 0 <= k < |bucket[ip]| ==> !InWindow(bucket[ip][k], now, ms)
    ensures Gate(requests, ms, bucket, ip, now).admitted
    ensures Gate(requests, ms, bucket, ip, now).bucket[ip] == [now]
  {
    KeptNoneInWindow(bucket[ip], now, ms);
  }

  /** Eviction removes at least one time when some recorded time has left the window. */
  lemma {:induction false} KeptShrinks(b: seq<int>, now: int, ms: int, k: int)
    requires 0 <= k < |b| && !InWindow(b[k], now, ms)
    ensures |Kept(b, now, ms)| < |b|
    decreases |b|
  {
    if k < |b| - 1 {
      KeptShrinks(b[..|b| - 1], now, ms, k);
    }
  }

  /**
   * Strict sliding: a client at (or below) the cap is admitted again as soon
   * as any one of its recorded times has left the window, and its bucket
   * becomes the surviving times followed by `now`.
   */
  lemma GateSlides(requests: int, ms: int, bucket: map<string, seq<int>>, ip: string, now: int, k: int)
    requires requests >= 1 && ip in bucket && |bucket[ip]| <= Cap(requests)
    requires 0 <= k < |bucket[ip]| && !InWindow(bucket[ip][k], now, ms)
    ensures Gate(requests, ms, bucket, ip, now).admitted
    ensures Gate(requests, ms, bucket, ip, now).bucket[ip] == Kept(bucket[ip], now, ms) + [now]
  {
    KeptShrinks(bucket[ip], now, ms, k);
  }

  /** The decisions for a series of requests by one client at the given times, and the final map. */
  function GateRun(requests: int, ms: int, bucket: map<string, seq<int>>, ip: string, times: seq<int>)
    : (r: (seq<bool>, map<string, seq<int>>))
    ensures |r.0| == |times|
    decreases |times|
  {
    if times == [] then ([], bucket)
    else
      var prev := GateRun(requests, ms, bucket, ip, times[..|times| - 1]);
      var d := Gate(requests, ms, prev.1, ip, times[|times| - 1]);
      (prev.0 + [d.admitted], d.bucket)
  }

  /**
   * One request of a client whose whole non-empty bucket lies in the window:
   * admitted, with `now` appended, exactly while the bucket is below the cap.
   */
  lemma GateWithinWindowStep(requests: int, ms: int, bucket: map<string, seq<int>>, ip: string, now: int)
    requires ip in bucket && 1 <= |bucket[ip]| <= Cap(requests)
    requires forall k :: 0 <= k < |bucket[ip]| ==> InWindow(bucket[ip][k], now, ms)
    ensures var d := Gate(requests, ms, bucket, ip, now);
      && d.admitted == (|bucket[ip]| < Cap(requests))
      && d.bucket[ip] == bucket[ip] + (if d.admitted then [now] else [])
  {
    KeptAllInWindow(bucket[ip], now, ms);
  }

  /**
   * A new client whose requests all fall within one window of each other has
   * its first `Cap(requests)` requests admitted and every later one rejected,
   * and its bucket holds the times of the admitted ones.
   */
  lemma {:induction false} GateRunWithinWindow(requests: int, ms: int, bucket: map<string, seq<int>>,
                                                ip: string, times: seq<int>)
    requires ip !in bucket
    requires forall i, j :: 0 <= i < j < |times| ==> times[j] - times[i] <= ms
    ensures var r := GateRun(requests, ms, bucket, ip, times);
      && (times != [] ==> ip in r.1 && r.1[ip] == times[..if |times| < Cap(requests) then |times| else Cap(requests)])
      && forall k :: 0 <= k < |times| ==> r.0[k] == (k < Cap(requests))
    decreases |times|
  {
    if times != [] {
      var n := |times|;
      var front := times[..n - 1];
      var now := times[n - 1];
      forall i, j | 0 <= i < j < |front| ensures front[j] - front[i] <= ms {
        assert front[j] == times[j] && front[i] == times[i];
      }
      GateRunWithinWindow(requests, ms, bucket, ip, front);
      var prev := GateRun(requests, ms, bucket, ip, front);
      var d := Gate(requests, ms, prev.1, ip, now);
      var r := GateRun(requests, ms, bucket, ip, times);
      assert r == (prev.0 + [d.admitted], d.bucket);
      assert d.admitted == (n - 1 < Cap(requests)) by {
        if n - 1 > 0 {
          GateWithinWindowExtend(requests, ms, prev.1, ip, times);
        }
      }
      forall k | 0 <= k < n ensures r.0[k] == (k < Cap(requests)) {
        if k < n - 1 {
          assert r.0[k] == prev.0[k];
        }
      }
      if n - 1 > 0 {
        GateWithinWindowExtend(requests, ms, prev.1, ip, times);
      } else {
        assert times[..1] == [now];
      }
    }
  }

  /**
   * The inductive step of the lemma above: a bucket holding the first `m`
   * times of the series, all in the window at the next time, grows by that
   * time exactly when below the cap.
   */
  lemma GateWithinWindowExtend(requests: int, ms: int, bucket: map<string, seq<int>>, ip: string, times: seq<int>)
    requires |times| >= 2
    requires forall i, j :: 0 <= i < j < |times| ==> times[j] - times[i] <= ms
    requires var m := if |times| - 1 < Cap(requests) then |times| - 1 else Cap(requests);
      ip in bucket && bucket[ip] == times[..|times| - 1][..m]
    ensures var m := if |times| - 1 < Cap(requests) then |times| - 1 else Cap(requests);
      var d := Gate(requests, ms, bucket, ip, times[|times| - 1]);
      && d.admitted == (m < Cap(requests))
      && d.bucket[ip] == times[..if |times| < Cap(requests) then |times| else Cap(requests)]
  {
    var n := |times|;
    var now := times[n - 1];
    var m := if n - 1 < Cap(requests) then n - 1 else Cap(requests);
    assert bucket[ip] == times[..m];
    forall k | 0 <= k < m ensures InWindow(bucket[ip][k], now, ms) {
      assert bucket[ip][k] == times[k];
    }
    GateWithinWindowStep(requests, ms, bucket, ip, now);
    if m < Cap(requests) {
      assert times[..m] + [now] == times[..n];
    }
  }
}
