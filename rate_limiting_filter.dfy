/**
 * RateLimitingFilter: a token bucket per client and path for the login and product endpoints.
 * A bucket starts with 60 tokens; each admitted request takes one. Bucket4j refills the tokens
 * with time; here refilling is a separate step, `Refill`, that the clock would trigger.
 */
module RateLimitingFilter {
  import Strings
  import Http

  /** Tokens a new bucket holds: `Bandwidth.classic(60, ...)`. */
  const Capacity := 60

  const TooManyRequestsText := "Too many requests. Please try again later."

  /** Only the login and product endpoints are limited. */
  predicate ShouldLimit(path: string) {
    Strings.StartsWith(path, "/api/auth/login") || Strings.StartsWith(path, "/api/products")
  }

  /** The bucket key: the client address and the exact path. */
  function Key(ip: string, path: string): string {
    ip + ":" + path
  }

  /** The tokens the key's bucket holds; a key without a bucket gets a new, full one. */
  function Tokens(cache: map<string, int>, key: string): int {
    if key in cache then cache[key] else Capacity
  }

  /**
   * One limited request on a key: the key's bucket is created if needed, and the request is
   * admitted when a token is left, which it takes.
   */
  function Admit(cache: map<string, int>, key: string): (map<string, int>, bool) {
    var t := Tokens(cache, key);
    if t >= 1 then (cache[key := t - 1], true) else (cache[key := t], false)
  }

  predicate BucketsOk(cache: map<string, int>) {
    forall k :: k in cache ==> 0 <= cache[k] <= Capacity
  }

  class Filter {
    /** `cache`: the bucket of each key, as the tokens it holds. */
    var cache: map<string, int>

    ghost predicate Valid()
      reads this
    {
      BucketsOk(cache)
    }

    constructor ()
      ensures Valid() && cache == map[]
    {
      cache := map[];
    }

    /** `resolveBucket`: the key's bucket, created full the first time the key is seen. */
    method ResolveBucket(key: string) returns (tokens: int)
      requires Valid()
      modifies this
      ensures Valid()
      ensures tokens == Tokens(old(cache), key)
      ensures cache == old(cache)[key := tokens]
    {
      if key !in cache {
        cache := cache[key := Capacity];
      }
      tokens := cache[key];
    }

    /**
     * `doFilterInternal`. An unlimited path goes to the chain untouched. A limited one is admitted
     * when its bucket has a token, and goes to the chain; otherwise the response gets status 429
     * and the message, and the chain is not called. `chainCalls` counts the calls of the chain.
     */
    method DoFilterInternal(path: string, ip: string, response: Http.Response) returns (chainCalls: nat)
      requires Valid()
      modifies this, response
      ensures Valid()
      ensures !ShouldLimit(path) ==> cache == old(cache) && chainCalls == 1
      ensures ShouldLimit(path) ==> cache == Admit(old(cache), Key(ip, path)).0
      ensures ShouldLimit(path) ==> (chainCalls == 1 <==> Admit(old(cache), Key(ip, path)).1)
      ensures chainCalls <= 1
      ensures chainCalls == 1 ==> response.status == old(response.status) && response.body == old(response.body)
      ensures chainCalls == 0 ==> response.status == Http.StatusTooManyRequests && response.body == old(response.body) + TooManyRequestsText
      ensures response.headers == old(response.headers)
    {
      if !ShouldLimit(path) {
        return 1;
      }
      var key := Key(ip, path);
      var tokens := ResolveBucket(key);
      if tokens >= 1 {
        cache := cache[key := tokens - 1];
        chainCalls := 1;
      } else {
        response.SetStatus(Http.StatusTooManyRequests);
        response.Write(TooManyRequestsText);
        chainCalls := 0;
      }
    }

    /** The clock's refill of one bucket: adds tokens, never beyond the capacity. */
    method Refill(key: string, amount: nat)
      requires Valid() && key in cache
      modifies this
      ensures Valid()
      ensures cache == old(cache)[key := if old(cache)[key] + amount > Capacity then Capacity else old(cache)[key] + amount]
    {
      var t := cache[key] + amount;
      cache := cache[key := if t > Capacity then Capacity else t];
    }
  }

  /** n limited requests on one key, one after the other: how many are admitted. */
  function AdmittedCount(cache: map<string, int>, key: string, n: nat): nat
    decreases n
  {
    if n == 0 then 0
    else
      var (next, ok) := Admit(cache, key);
      (if ok then 1 else 0) + AdmittedCount(next, key, n - 1)
  }

  /**
   * Without a refill, n requests on one key admit as many as its bucket has tokens, and no more:
   * a fresh key admits min(n, 60).
   */
  lemma {:induction false} AdmittedUpToTokens(cache: map<string, int>, key: string, n: nat)
    requires BucketsOk(cache)
    ensures AdmittedCount(cache, key, n) == if n < Tokens(cache, key) then n else Tokens(cache, key)
    decreases n
  {
    if n > 0 {
      var (next, ok) := Admit(cache, key);
      AdmittedUpToTokens(next, key, n - 1);
    }
  }

  /** A request on one key leaves every other key's bucket as it was. */
  lemma AdmitLeavesOtherKeys(cache: map<string, int>, key: string, other: string)
    requires other != key
    ensures Tokens(Admit(cache, key).0, other) == Tokens(cache, other)
  {
  }

  /**
   * Keys tell clients and paths apart: for addresses without a slash and paths starting with one,
   * equal keys mean the same address and the same path.
   */
  lemma KeyInjective(ip1: string, path1: string, ip2: string, path2: string)
    requires '/' !in ip1 && '/' !in ip2
    requires |path1| > 0 && path1[0] == '/' && |path2| > 0 && path2[0] == '/'
    requires Key(ip1, path1) == Key(ip2, path2)
    ensures ip1 == ip2 && path1 == path2
  {
    var k := Key(ip1, path1);
    assert k[|ip1| + 1] == '/' && '/' !in k[..|ip1| + 1] by {
      assert k[..|ip1| + 1] == ip1 + ":";
    }
    assert k[|ip2| + 1] == '/' && '/' !in k[..|ip2| + 1] by {
      assert k[..|ip2| + 1] == ip2 + ":";
    }
    assert |ip1| == |ip2|;
    assert ip1 == k[..|ip1|] == ip2;
    assert path1 == k[|ip1| + 1..] == path2;
  }
}
