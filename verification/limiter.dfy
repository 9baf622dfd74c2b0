/**
 * internal/middleware/limiter.go: the admission decision of `RateLimiter`.
 *
 * The limiter's buckets (pkg/limiter, not part of this model) are abstracted to
 * a map from key to the tokens available at the moment of the request; the
 * time-based refill that fills them is left out, so a sequence of requests is
 * one zero-elapsed-time window. The request's key is a parameter, standing for
 * `l.Key(c)`.
 */
module RateLimit {

  type Key = string

  /** Tokens available in each bucket; a key without a configured rule has no entry. */
  type Buckets = map<Key, nat>

  datatype ErrorCode = TooManyRequests

  /** `c.Next()`, or an error response followed by `c.Abort()`. */
  datatype Decision = Next | Abort(err: ErrorCode)

  function Min(a: int, b: int): int
  {
    if a <= b then a else b
  }

  /** `Bucket.TakeAvailable(count)`: takes up to `count` tokens without waiting; returns (taken, left). */
  function TakeAvailable(available: nat, count: int): (r: (nat, nat))
    ensures r.0 + r.1 == available
    ensures count <= 0 ==> r.0 == 0
    ensures count > 0 ==> r.0 == Min(count, available)
  {
    if count <= 0 then (0, available)
    else if count > available then (available, 0)
    else (count, available - count)
  }

  /** The handler `RateLimiter` installs, applied to one request with key `key`. */
  function RateLimiter(buckets: Buckets, key: Key): (r: (Decision, Buckets))
    ensures key !in buckets ==> r == (Next, buckets)
    ensures key in buckets ==> (r.0 == Next <==> buckets[key] > 0)
    ensures r.0.Abort? ==> r.0.err == TooManyRequests
    ensures r.1.Keys == buckets.Keys
    ensures key in buckets ==> r.1[key] == buckets[key] - (if r.0 == Next then 1 else 0)
    ensures forall k :: k in buckets && k != key ==> r.1[k] == buckets[k]
  {
    if key in buckets then
      var (count, left) := TakeAvailable(buckets[key], 1);
      var after := buckets[key := left];
      if count == 0 then (Abort(TooManyRequests), after) else (Next, after)
    else
      (Next, buckets)
  }

  /** The limiter applied to a sequence of requests, in order, with no refill in between. */
  function Serve(buckets: Buckets, keys: seq<Key>): (r: (seq<Decision>, Buckets))
    ensures |r.0| == |keys| && r.1.Keys == buckets.Keys
  {
    if |keys| == 0 then ([], buckets)
    else
      var (d, next) := RateLimiter(buckets, keys[0]);
      var (ds, final) := Serve(next, keys[1..]);
      ([d] + ds, final)
  }

  /**
   * Request `i` is admitted exactly when its key has no bucket, or fewer
   * earlier requests with the same key came before it than its bucket held.
   * Requests with other keys play no part.
   */
  lemma {:induction false} ServeDecision(buckets: Buckets, keys: seq<Key>, i: nat)
    requires i < |keys|
    ensures Serve(buckets, keys).0[i] == Next <==>
      keys[i] !in buckets || multiset(keys[..i])[keys[i]] < buckets[keys[i]]
    decreases |keys|
  {
    var (d, next) := RateLimiter(buckets, keys[0]);
    if i > 0 {
      ServeDecision(next, keys[1..], i - 1);
      assert keys[..i] == [keys[0]] + keys[1..][..i - 1];
      assert keys[1..][i - 1] == keys[i];
    }
  }

  /** Admitted requests with key `k`, counted over decisions `ds`. */
  function AdmittedFor(k: Key, keys: seq<Key>, ds: seq<Decision>): nat
    requires |ds| == |keys|
  {
    if |keys| == 0 then 0
    else (if keys[0] == k && ds[0] == Next then 1 else 0) + AdmittedFor(k, keys[1..], ds[1..])
  }

  /**
   * No over-grant: a bucket admits as many of its key's requests as it has
   * tokens, and no more; its final count is what is left.
   */
  lemma {:induction false} ServeGrants(buckets: Buckets, keys: seq<Key>, k: Key)
    requires k in buckets
    ensures AdmittedFor(k, keys, Serve(buckets, keys).0) == Min(multiset(keys)[k], buckets[k])
    ensures Serve(buckets, keys).1[k] == buckets[k] - Min(multiset(keys)[k], buckets[k])
    decreases |keys|
  {
    if |keys| > 0 {
      var (d, next) := RateLimiter(buckets, keys[0]);
      ServeGrants(next, keys[1..], k);
      assert keys == [keys[0]] + keys[1..];
      assert multiset(keys)[k] == multiset([keys[0]])[k] + multiset(keys[1..])[k];
    }
  }

  /**
   * Buckets of other keys never influence the decisions for key `k`: two
   * bucket maps that agree on `k` admit and reject the same `k` requests.
   */
  lemma KeysIndependent(b1: Buckets, b2: Buckets, keys: seq<Key>, k: Key, i: nat)
    requires (k in b1 <==> k in b2) && (k in b1 ==> b1[k] == b2[k])
    requires i < |keys| && keys[i] == k
    ensures Serve(b1, keys).0[i] == Serve(b2, keys).0[i]
  {
    ServeDecision(b1, keys, i);
    ServeDecision(b2, keys, i);
  }

  lemma {:induction false} RepeatCount(k: Key, n: nat)
    ensures multiset(seq(n, _ => k))[k] == n
  {
    if n > 0 {
      RepeatCount(k, n - 1);
      assert seq(n, _ => k) == seq(n - 1, _ => k) + [k];
    }
  }

  /** A bucket holding 10 tokens admits 10 immediate requests and rejects the 11th. */
  lemma TenAdmittedEleventhRejected(buckets: Buckets, k: Key)
    requires k in buckets && buckets[k] == 10
    ensures var ds := Serve(buckets, seq(11, _ => k)).0;
      (forall i :: 0 <= i < 10 ==> ds[i] == Next) && ds[10] == Abort(TooManyRequests)
  {
    var keys := seq(11, _ => k);
    forall i | 0 <= i < 11
      ensures Serve(buckets, keys).0[i] == Next <==> i < 10
    {
      ServeDecision(buckets, keys, i);
      RepeatCount(k, i);
      assert keys[..i] == seq(i, _ => k);
    }
    var ds := Serve(buckets, keys).0;
    assert ds[10] != Next;
  }
}
