/** The fixed-window rate limiter of internal/auth/auth.go.
    Times are integers (nanoseconds); 0 stands for Go's zero time. */
module RateLimit {

  datatype Bucket = Bucket(start: int, count: int)
  type Buckets = map<string, Bucket>

  /** One call to Allow. */
  datatype Call = Call(key: string, now: int)

  function Max(a: int, b: int): int {
    if a > b then a else b
  }

  /** Reading a missing key yields the zero bucket. */
  function Lookup(buckets: Buckets, key: string): Bucket {
    if key in buckets then buckets[key] else Bucket(0, 0)
  }

  /** The bucket a call at `now` is judged against. */
  function Effective(b: Bucket, window: int, now: int): Bucket {
    if b.start == 0 || now - b.start >= window then Bucket(now, 0) else b
  }

  predicate Accepts(buckets: Buckets, limit: int, window: int, call: Call) {
    Effective(Lookup(buckets, call.key), window, call.now).count < limit
  }

  function Next(buckets: Buckets, limit: int, window: int, call: Call): Buckets {
    var b := Effective(Lookup(buckets, call.key), window, call.now);
    if b.count < limit then buckets[call.key := b.(count := b.count + 1)] else buckets
  }

  class RateLimiter {
    const limit: int
    const window: int
    var buckets: Buckets

    constructor (limit: int, window: int)
      ensures this.limit == limit && this.window == window && buckets == map[]
    {
      this.limit, this.window, buckets := limit, window, map[];
    }

    method Allow(key: string, now: int) returns (ok: bool)
      modifies this`buckets
      ensures ok == Accepts(old(buckets), limit, window, Call(key, now))
      ensures buckets == Next(old(buckets), limit, window, Call(key, now))
      ensures forall k :: k != key ==> Lookup(buckets, k) == Lookup(old(buckets), k)
    {
      var b := if key in buckets then buckets[key] else Bucket(0, 0);
      if b.start == 0 || now - b.start >= window {
        b := Bucket(now, 0);
      }
      if b.count >= limit {
        return false;
      }
      b := b.(count := b.count + 1);
      buckets := buckets[key := b];
      return true;
    }
  }

  // ---- Whole runs ----

  /** The table after a sequence of calls on a new limiter. */
  function Run(limit: int, window: int, calls: seq<Call>): Buckets {
    if calls == [] then map[]
    else
      var last := |calls| - 1;
      Next(Run(limit, window, calls[..last]), limit, window, calls[last])
  }

  /** How many calls for `key` made at a time in [from, to) were accepted. */
  function Accepted(limit: int, window: int, calls: seq<Call>, key: string, from: int, to: int): nat {
    if calls == [] then 0
    else
      var last := |calls| - 1;
      var before := Accepted(limit, window, calls[..last], key, from, to);
      var c := calls[last];
      if c.key == key && from <= c.now < to && Accepts(Run(limit, window, calls[..last]), limit, window, c)
      then before + 1 else before
  }

  /** Clocks never go back and never show the zero time. */
  predicate Ordered(calls: seq<Call>) {
    && (forall i :: 0 <= i < |calls| ==> calls[i].now != 0)
    && (forall i, j :: 0 <= i <= j < |calls| ==> calls[i].now <= calls[j].now)
  }

  lemma OrderedPrefix(calls: seq<Call>, n: nat)
    requires Ordered(calls) && n <= |calls|
    ensures Ordered(calls[..n])
  {
    var p := calls[..n];
    assert forall i :: 0 <= i < n ==> p[i] == calls[i];
  }

  /** Arithmetic of window starts: starts at least one window apart land in different quotients. */
  lemma WindowAdvance(a: int, b: int, window: int)
    requires window > 0 && b - a >= window
    ensures b / window >= a / window + 1
  {
    var q := a / window;
    assert a == q * window + a % window;
    if b / window <= q {
      assert b == (b / window) * window + b % window;
      MulMonotone(b / window, q, window);
      assert false;
    }
  }

  lemma MulMonotone(a: int, b: int, c: int)
    requires a <= b && c >= 0
    ensures a * c <= b * c
  {}

  /** What an accepted count may be, given the current bucket of the key. */
  predicate Bounded(limit: int, window: int, b: Bucket, accepted: int, from: int)
    requires window > 0
  {
    if b.start == 0 then accepted == 0
    else if b.start < from then accepted <= b.count
    else accepted <= Max(limit, 0) * ((b.start - from) / window + 1) + b.count
  }

  lemma {:induction false} BucketInvariant(limit: int, window: int, calls: seq<Call>, key: string, from: int, to: int)
    requires Ordered(calls) && window > 0
    requires forall i :: 0 <= i < |calls| ==> calls[i].now < to
    ensures var b := Lookup(Run(limit, window, calls), key);
            && 0 <= b.count <= Max(limit, 0)
            && (b.start != 0 ==> calls != [] && b.start <= calls[|calls| - 1].now)
            && (calls == [] || calls[|calls| - 1].now < from ==> Accepted(limit, window, calls, key, from, to) == 0)
            && Bounded(limit, window, b, Accepted(limit, window, calls, key, from, to), from)
  {
    if calls == [] {
    } else {
      var last := |calls| - 1;
      var prefix, c := calls[..last], calls[last];
      OrderedPrefix(calls, last);
      assert forall i :: 0 <= i < last ==> prefix[i] == calls[i];
      BucketInvariant(limit, window, prefix, key, from, to);
      if c.key == key && Accepts(Run(limit, window, prefix), limit, window, c) {
        BoundedStep(limit, window, Lookup(Run(limit, window, prefix), key), c.now,
          Accepted(limit, window, prefix, key, from, to), from);
      }
    }
  }

  /** One accepted call keeps the bound, whether it opens a window or not. */
  lemma BoundedStep(limit: int, window: int, b: Bucket, now: int, accepted: int, from: int)
    requires window > 0 && now != 0 && 0 <= b.count <= Max(limit, 0)
    requires b.start != 0 ==> b.start <= now
    requires now < from ==> accepted == 0
    requires Bounded(limit, window, b, accepted, from)
    requires Effective(b, window, now).count < limit
    ensures var e := Effective(b, window, now);
            Bounded(limit, window, e.(count := e.count + 1), accepted + (if from <= now then 1 else 0), from)
  {
    if b.start != 0 && now - b.start >= window && from <= now {
      RollOver(limit, window, b, now, accepted, from);
    } else if b.start == 0 && from <= now {
      FreshWindow(limit, window, now, from);
    }
  }

  lemma FreshWindow(limit: int, window: int, now: int, from: int)
    requires window > 0 && limit > 0 && from <= now
    ensures 0 <= limit * ((now - from) / window + 1)
  {
    assert (now - from) / window >= 0;
    MulMonotone(0, (now - from) / window + 1, limit);
  }

  lemma RollOver(limit: int, window: int, b: Bucket, now: int, accepted: int, from: int)
    requires window > 0 && limit > 0 && 0 <= b.count <= limit && b.start != 0
    requires now - b.start >= window && from <= now
    requires Bounded(limit, window, b, accepted, from)
    ensures accepted <= limit * ((now - from) / window + 1)
  {
    if b.start < from {
      assert (now - from) / window >= 0;
      MulMonotone(1, (now - from) / window + 1, limit);
    } else {
      WindowAdvance(b.start - from, now - from, window);
      MulMonotone((b.start - from) / window + 2, (now - from) / window + 1, limit);
      assert limit * ((b.start - from) / window + 2) == limit * ((b.start - from) / window + 1) + limit;
    }
  }

  lemma {:induction false} AcceptedPrefix(limit: int, window: int, calls: seq<Call>, n: nat, key: string, from: int,
      to: int)
    requires Ordered(calls) && n <= |calls|
    requires forall i :: n <= i < |calls| ==> calls[i].now >= to
    ensures Accepted(limit, window, calls, key, from, to) == Accepted(limit, window, calls[..n], key, from, to)
  {
    if n == |calls| {
      assert calls[..n] == calls;
    } else {
      var last := |calls| - 1;
      OrderedPrefix(calls, last);
      AcceptedPrefix(limit, window, calls[..last], n, key, from, to);
      assert calls[..last][..n] == calls[..n];
    }
  }

  /** Calls before a time form a prefix of an ordered run. */
  lemma {:induction false} SplitAt(calls: seq<Call>, to: int) returns (n: nat)
    requires Ordered(calls)
    ensures n <= |calls|
    ensures forall i :: 0 <= i < n ==> calls[i].now < to
    ensures forall i :: n <= i < |calls| ==> calls[i].now >= to
  {
    n := 0;
    while n < |calls| && calls[n].now < to
      invariant n <= |calls|
      invariant forall i :: 0 <= i < n ==> calls[i].now < to
    {
      n := n + 1;
    }
  }

  /** Any half-open interval of k windows accepts at most (k + 1) * limit calls of one key. */
  lemma {:induction false} IntervalBound(limit: int, window: int, calls: seq<Call>, key: string, from: int, k: nat)
    requires Ordered(calls) && window > 0
    ensures Accepted(limit, window, calls, key, from, from + k * window) <= (k + 1) * Max(limit, 0)
  {
    var to, cap := from + k * window, Max(limit, 0);
    var n := SplitAt(calls, to);
    AcceptedPrefix(limit, window, calls, n, key, from, to);
    var p := calls[..n];
    OrderedPrefix(calls, n);
    BucketInvariant(limit, window, p, key, from, to);
    var b := Lookup(Run(limit, window, p), key);
    CapArithmetic(cap, window, b, Accepted(limit, window, p, key, from, to), from, k);
  }

  lemma CapArithmetic(cap: nat, window: int, b: Bucket, accepted: int, from: int, k: nat)
    requires window > 0 && 0 <= b.count <= cap && (b.start != 0 ==> b.start < from + k * window)
    requires Bounded(cap, window, b, accepted, from)
    ensures accepted <= (k + 1) * cap
  {
    if b.start == 0 || b.start < from {
      MulMonotone(1, k + 1, cap);
    } else {
      QuotientBelow(b.start - from, k, window);
      MulMonotone((b.start - from) / window + 1, k, cap);
      assert (k + 1) * cap == k * cap + cap;
    }
  }

  lemma QuotientBelow(x: int, k: nat, window: int)
    requires 0 <= x < k * window && window > 0
    ensures x / window < k
  {
    assert x == (x / window) * window + x % window;
    if x / window >= k {
      MulMonotone(k, x / window, window);
    }
  }

  /** Everything counted in the current bucket really was accepted since the bucket opened. */
  lemma {:induction false} CountedCallsWereAccepted(limit: int, window: int, calls: seq<Call>, key: string, from: int,
      to: int)
    requires Ordered(calls) && window > 0
    requires forall i :: 0 <= i < |calls| ==> calls[i].now < to
    ensures var b := Lookup(Run(limit, window, calls), key);
            && (b.start == 0 ==> b.count == 0)
            && (b.start != 0 && from <= b.start ==> b.count <= Accepted(limit, window, calls, key, from, to))
  {
    if calls == [] {
    } else {
      var last := |calls| - 1;
      var prefix := calls[..last];
      OrderedPrefix(calls, last);
      assert forall i :: 0 <= i < last ==> prefix[i] == calls[i];
      CountedCallsWereAccepted(limit, window, prefix, key, from, to);
      BucketInvariant(limit, window, prefix, key, from, to);
    }
  }

  /** A call is refused only when its key already had `limit` acceptances in the last window. In
      particular, with limit >= 1, a key with no acceptance in the last window is accepted. */
  lemma {:induction false} RefusedOnlyWhenFull(limit: int, window: int, calls: seq<Call>, call: Call)
    requires window > 0 && Ordered(calls + [call])
    requires !Accepts(Run(limit, window, calls), limit, window, call)
    ensures limit <= Accepted(limit, window, calls, call.key, call.now - window + 1, call.now + 1)
  {
    var all := calls + [call];
    OrderedPrefix(all, |calls|);
    assert all[..|calls|] == calls;
    assert forall i :: 0 <= i < |calls| ==> calls[i] == all[i] && all[i].now <= all[|calls|].now;
    CountedCallsWereAccepted(limit, window, calls, call.key, call.now - window + 1, call.now + 1);
  }

  /** Calls for other keys never change what a key sees: dropping them changes nothing. */
  function OnlyKey(calls: seq<Call>, key: string): seq<Call> {
    if calls == [] then []
    else
      var last := |calls| - 1;
      OnlyKey(calls[..last], key) + (if calls[last].key == key then [calls[last]] else [])
  }

  lemma {:induction false} KeysAreIndependent(limit: int, window: int, calls: seq<Call>, key: string)
    ensures Lookup(Run(limit, window, calls), key) == Lookup(Run(limit, window, OnlyKey(calls, key)), key)
  {
    if calls == [] {
    } else {
      var last := |calls| - 1;
      KeysAreIndependent(limit, window, calls[..last], key);
      var rest := OnlyKey(calls[..last], key);
      if calls[last].key == key {
        assert OnlyKey(calls, key)[..|rest|] == rest;
      } else {
        assert OnlyKey(calls, key) == rest;
      }
    }
  }
}
