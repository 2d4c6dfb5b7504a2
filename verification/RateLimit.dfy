/** The fixed-window rate limiter: counters with an expiry at the end of the minute, one per client key.
    A counter is gone from its expiry instant on; limiter and counters share one clock. A store that keeps a key
    for the very millisecond of its expiry carries a count over if a request falls in that millisecond. */
module RateLimit {
  import opened Text
  import opened Wrappers

  // Nanoseconds since the epoch.
  type Instant = int

  const MINUTE: int := 60_000_000_000

  function Minute(now: Instant): int { now / MINUTE }

  function ResetTime(now: Instant): Instant { (Minute(now) + 1) * MINUTE }

  datatype Counter = Counter(count: nat, expireAt: Instant)

  /** The value of a key at a time: an expired or absent key counts nothing. */
  function Live(counters: map<string, Counter>, key: string, now: Instant): nat {
    if key in counters && now < counters[key].expireAt then counters[key].count else 0
  }

  function Incremented(counters: map<string, Counter>, key: string, now: Instant): map<string, Counter> {
    counters[key := Counter(Live(counters, key, now) + 1, ResetTime(now))]
  }

  datatype Verdict = Verdict(allowed: bool, remaining: nat, resetTime: Instant)

  class RateLimiter {
    const requestsPerMinute: int
    const keyPrefix: string
    var counters: map<string, Counter>

    constructor (requestsPerMinute: int, keyPrefix: string)
      ensures this.requestsPerMinute == requestsPerMinute && counters == map[]
      ensures this.keyPrefix == if keyPrefix == "" then "ratelimit" else keyPrefix
    {
      this.requestsPerMinute := requestsPerMinute;
      this.keyPrefix := if keyPrefix == "" then "ratelimit" else keyPrefix;
      counters := map[];
    }

    /** One atomic check: count the request, move the expiry to the end of the minute, compare. When the
        counters cannot be reached the check is an error that still carries the reset time. */
    method CheckLimit(key: string, now: Instant, reachable: bool) returns (r: Result<Verdict, Instant>)
      modifies this`counters
      ensures !reachable ==> r == Err(ResetTime(now)) && counters == old(counters)
      ensures reachable ==>
                && counters == Incremented(old(counters), key, now)
                && r.Ok? && r.value.resetTime == ResetTime(now)
                && (r.value.allowed <==> Live(old(counters), key, now) < requestsPerMinute)
                && r.value.remaining == if r.value.allowed then requestsPerMinute - counters[key].count else 0
    {
      var windowStart := now / MINUTE * MINUTE;
      var resetTime := windowStart + MINUTE;
      if !reachable {
        return Err(resetTime);
      }
      var live := if key in counters && now < counters[key].expireAt then counters[key].count else 0;
      var count := live + 1;
      counters := counters[key := Counter(count, resetTime)];
      var allowed := count <= requestsPerMinute;
      var remaining := requestsPerMinute - count;
      if remaining < 0 {
        remaining := 0;
      }
      r := Ok(Verdict(allowed, remaining, resetTime));
    }

    method CheckLimitForKey(key: string, now: Instant, reachable: bool) returns (r: Result<Verdict, Instant>)
      modifies this`counters
      ensures !reachable ==> r == Err(ResetTime(now)) && counters == old(counters)
      ensures reachable ==>
                && counters == Incremented(old(counters), CustomKey(keyPrefix, key), now)
                && r.Ok? && r.value.resetTime == ResetTime(now)
                && (r.value.allowed <==> Live(old(counters), CustomKey(keyPrefix, key), now) < requestsPerMinute)
                && r.value.remaining
                   == if r.value.allowed then requestsPerMinute - counters[CustomKey(keyPrefix, key)].count else 0
    {
      r := CheckLimit(CustomKey(keyPrefix, key), now, reachable);
    }
  }

  // ---------- runs ----------

  datatype Request = Request(key: string, now: Instant)

  ghost predicate Ordered(reqs: seq<Request>) {
    forall i, j :: 0 <= i < j < |reqs| ==> reqs[i].now <= reqs[j].now
  }

  ghost predicate NotAfter(reqs: seq<Request>, now: Instant) {
    forall i :: 0 <= i < |reqs| ==> reqs[i].now <= now
  }

  /** The counters after a run from no counters at all. */
  function After(reqs: seq<Request>): map<string, Counter> {
    if reqs == [] then map[]
    else
      var last := reqs[|reqs| - 1];
      Incremented(After(reqs[..|reqs| - 1]), last.key, last.now)
  }

  /** The verdict CheckLimit gives on request i of a run. */
  predicate Allowed(rpm: int, reqs: seq<Request>, i: nat)
    requires i < |reqs|
  {
    Live(After(reqs[..i]), reqs[i].key, reqs[i].now) < rpm
  }

  /** How many requests of a key fall in a minute. */
  function CountIn(reqs: seq<Request>, key: string, minute: int): nat {
    if reqs == [] then 0
    else
      var last := reqs[|reqs| - 1];
      CountIn(reqs[..|reqs| - 1], key, minute) + if last.key == key && Minute(last.now) == minute then 1 else 0
  }

  /** How many requests of a key are allowed in a time interval, counting a run's requests up to n. */
  function AllowedDuring(rpm: int, reqs: seq<Request>, key: string, from: Instant, to: Instant, n: nat): nat
    requires n <= |reqs|
  {
    if n == 0 then 0
    else
      var r := reqs[n - 1];
      AllowedDuring(rpm, reqs, key, from, to, n - 1)
      + if r.key == key && from <= r.now < to && Allowed(rpm, reqs, n - 1) then 1 else 0
  }

  lemma MinuteBounds(now: Instant)
    ensures Minute(now) * MINUTE <= now < ResetTime(now)
  {
  }

  /** The reset time is the next full minute. */
  lemma ResetIsNextMinute(now: Instant)
    ensures ResetTime(now) % 60_000_000_000 == 0 && now < ResetTime(now) <= now + 60_000_000_000
  {
  }

  lemma MinuteUnique(now: Instant, minute: int)
    ensures Minute(now) == minute <==> minute * MINUTE <= now < (minute + 1) * MINUTE
  {
  }

  lemma {:induction false} NoneLater(reqs: seq<Request>, key: string, minute: int)
    requires forall i :: 0 <= i < |reqs| ==> Minute(reqs[i].now) < minute
    ensures CountIn(reqs, key, minute) == 0
  {
    if reqs != [] {
      NoneLater(reqs[..|reqs| - 1], key, minute);
    }
  }

  /** At any time from the last request on, a live counter is the number of its key's requests in the running
      minute: nothing is carried over from an earlier one and nothing is lost. */
  lemma {:induction false} LiveIsCount(reqs: seq<Request>, key: string, now: Instant)
    requires Ordered(reqs) && NotAfter(reqs, now)
    ensures Live(After(reqs), key, now) == CountIn(reqs, key, Minute(now))
  {
    if reqs != [] {
      var n := |reqs| - 1;
      var last := reqs[n];
      MinuteBounds(now);
      MinuteBounds(last.now);
      MinuteUnique(now, Minute(last.now));
      assert NotAfter(reqs[..n], last.now);
      if last.key != key {
        LiveIsCount(reqs[..n], key, now);
      } else {
        LiveIsCount(reqs[..n], key, last.now);
        if Minute(now) != Minute(last.now) {
          MinutesAscend(last.now, now);
          forall i | 0 <= i < |reqs| ensures Minute(reqs[i].now) < Minute(now) {
            MinutesAscend(reqs[i].now, last.now);
          }
          NoneLater(reqs, key, Minute(now));
        }
      }
    }
  }

  lemma MinutesAscend(a: Instant, b: Instant)
    requires a <= b
    ensures Minute(a) <= Minute(b)
  {
  }

  /** A request is allowed exactly if fewer than the limit came before it with its key in its minute. */
  lemma AllowedIffEarlyEnough(rpm: int, reqs: seq<Request>, i: nat)
    requires Ordered(reqs) && i < |reqs|
    ensures Allowed(rpm, reqs, i) <==> CountIn(reqs[..i], reqs[i].key, Minute(reqs[i].now)) < rpm
  {
    LiveIsCount(reqs[..i], reqs[i].key, reqs[i].now);
  }

  function Min(a: int, b: int): int { if a < b then a else b }

  function Limit(rpm: int): nat { if rpm < 0 then 0 else rpm }

  /** In an aligned minute exactly the first requests up to the limit are allowed. */
  lemma {:induction false} AlignedMinute(rpm: int, reqs: seq<Request>, key: string, minute: int, n: nat)
    requires Ordered(reqs) && n <= |reqs|
    ensures AllowedDuring(rpm, reqs, key, minute * 60_000_000_000, (minute + 1) * 60_000_000_000, n)
         == Min(CountIn(reqs[..n], key, minute), Limit(rpm))
  {
    if n != 0 {
      AlignedMinute(rpm, reqs, key, minute, n - 1);
      assert reqs[..n][..n - 1] == reqs[..n - 1];
      AllowedIffEarlyEnough(rpm, reqs, n - 1);
      MinuteUnique(reqs[n - 1].now, minute);
    }
  }

  lemma {:induction false} AllowedSplits(
    rpm: int, reqs: seq<Request>, key: string,
    a: Instant, from: Instant, middle: Instant, to: Instant, b: Instant, n: nat)
    requires n <= |reqs| && a <= from <= middle <= to <= b
    ensures AllowedDuring(rpm, reqs, key, from, to, n)
         <= AllowedDuring(rpm, reqs, key, a, middle, n) + AllowedDuring(rpm, reqs, key, middle, b, n)
  {
    if n != 0 {
      AllowedSplits(rpm, reqs, key, a, from, middle, to, b, n - 1);
    }
  }

  /** In any minute-long interval, aligned or not, at most twice the limit is allowed. */
  lemma AnyMinuteLongInterval(rpm: int, reqs: seq<Request>, key: string, from: Instant)
    requires Ordered(reqs)
    ensures AllowedDuring(rpm, reqs, key, from, from + 60_000_000_000, |reqs|) <= 2 * Limit(rpm)
  {
    var m := Minute(from);
    MinuteBounds(from);
    AllowedSplits(rpm, reqs, key, m * MINUTE, from, (m + 1) * MINUTE, from + MINUTE, (m + 1 + 1) * MINUTE, |reqs|);
    AlignedMinute(rpm, reqs, key, m, |reqs|);
    AlignedMinute(rpm, reqs, key, m + 1, |reqs|);
  }

  function Burst(key: string, now: Instant, n: nat): (reqs: seq<Request>)
    ensures |reqs| == n && forall i :: 0 <= i < n ==> reqs[i] == Request(key, now)
  {
    seq(n, _ => Request(key, now))
  }

  /** A full burst of n in the last instant of a minute and another in the next instant. */
  function TwoBursts(key: string, n: nat): (reqs: seq<Request>)
    ensures |reqs| == 2 * n && Ordered(reqs)
  {
    Burst(key, MINUTE - 1, n) + Burst(key, MINUTE, n)
  }

  lemma BurstAt(key: string, n: nat, i: nat)
    requires i < 2 * n
    ensures var r := TwoBursts(key, n)[i];
            && r.key == key && MINUTE - 1 <= r.now < 2 * MINUTE - 1 && Minute(r.now) == if i < n then 0 else 1
  {
  }

  /** Before request i of two bursts there are this many of its key in its minute. */
  lemma {:induction false} BurstCounts(key: string, n: nat, i: nat)
    requires i <= 2 * n
    ensures var before := TwoBursts(key, n)[..i];
            CountIn(before, key, 0) == Min(i, n) && CountIn(before, key, 1) == i - Min(i, n)
  {
    if i != 0 {
      var reqs := TwoBursts(key, n);
      BurstCounts(key, n, i - 1);
      BurstAt(key, n, i - 1);
      assert reqs[..i][..i - 1] == reqs[..i - 1];
    }
  }

  lemma BurstIsAllowed(n: nat, key: string, i: nat)
    requires i < 2 * n
    ensures Allowed(n, TwoBursts(key, n), i)
  {
    BurstAt(key, n, i);
    BurstCounts(key, n, i);
    AllowedIffEarlyEnough(n, TwoBursts(key, n), i);
  }

  predicate AllowedWithin(rpm: int, reqs: seq<Request>, key: string, from: Instant, to: Instant, i: nat)
    requires i < |reqs|
  {
    reqs[i].key == key && from <= reqs[i].now < to && Allowed(rpm, reqs, i)
  }

  /** If the first n requests are all of the key, in the interval and allowed, n are allowed in it. */
  lemma {:induction false} AllAllowed(rpm: int, reqs: seq<Request>, key: string, from: Instant, to: Instant, n: nat)
    requires n <= |reqs|
    requires forall i :: 0 <= i < n ==> AllowedWithin(rpm, reqs, key, from, to, i)
    ensures AllowedDuring(rpm, reqs, key, from, to, n) == n
  {
    if n != 0 {
      AllAllowed(rpm, reqs, key, from, to, n - 1);
      assert AllowedWithin(rpm, reqs, key, from, to, n - 1);
    }
  }

  /** Twice the limit is really reached, across a minute boundary. */
  lemma TwiceTheLimitIsReached(rpm: nat, key: string)
    ensures var reqs := TwoBursts(key, rpm);
            Ordered(reqs) && AllowedDuring(rpm, reqs, key, MINUTE - 1, MINUTE - 1 + 60_000_000_000, |reqs|) == 2 * rpm
  {
    var reqs := TwoBursts(key, rpm);
    var from, to := MINUTE - 1, MINUTE - 1 + MINUTE;
    forall i | 0 <= i < 2 * rpm ensures AllowedWithin(rpm, reqs, key, from, to, i) {
      BurstAt(key, rpm, i);
      BurstIsAllowed(rpm, key, i);
    }
    AllAllowed(rpm, reqs, key, from, to, 2 * rpm);
  }

  function OfKey(reqs: seq<Request>, key: string): (own: seq<Request>)
    ensures forall r :: r in own ==> r in reqs && r.key == key
  {
    if reqs == [] then []
    else
      var last := reqs[|reqs| - 1];
      OfKey(reqs[..|reqs| - 1], key) + if last.key == key then [last] else []
  }

  lemma {:induction false} OwnRequestsDecide(reqs: seq<Request>, key: string)
    ensures key in After(reqs) <==> key in After(OfKey(reqs, key))
    ensures key in After(reqs) ==> After(reqs)[key] == After(OfKey(reqs, key))[key]
  {
    if reqs != [] {
      var n := |reqs| - 1;
      var shorter := OfKey(reqs[..n], key);
      OwnRequestsDecide(reqs[..n], key);
      if reqs[n].key == key {
        assert (shorter + [reqs[n]])[..|shorter|] == shorter;
      } else {
        assert OfKey(reqs, key) == shorter;
      }
    }
  }

  /** Other keys never affect a verdict: it is the one the key's own requests alone would give. */
  lemma KeysAreIndependent(rpm: int, reqs: seq<Request>, i: nat)
    requires i < |reqs|
    ensures var own := OfKey(reqs[..i], reqs[i].key) + [reqs[i]];
            Allowed(rpm, reqs, i) <==> Allowed(rpm, own, |own| - 1)
  {
    OwnRequestsDecide(reqs[..i], reqs[i].key);
    var own := OfKey(reqs[..i], reqs[i].key) + [reqs[i]];
    assert own[..|own| - 1] == OfKey(reqs[..i], reqs[i].key);
  }

  // ---------- client keys ----------

  /** An IP address as it is printed, or nothing. */
  predicate IsAddress(s: string) {
    forall c :: c in s ==> '0' <= c <= '9' || 'a' <= c <= 'f' || c == '.' || c == ':'
  }

  type Address = s: string | IsAddress(s) witness ""

  /** What a request says about its client: the token's user or viewer id, if any, and the address. */
  datatype Context = Context(userId: Option<string>, viewerId: Option<string>, ip: Address)

  datatype Client = Client(kind: string, id: string)

  /** A user id wins over a viewer id, which wins over the address. */
  function Identity(c: Context): (client: Client)
    ensures client.kind in KINDS
  {
    if c.userId.Some? then Client("user", c.userId.value)
    else if c.viewerId.Some? then Client("viewer", c.viewerId.value)
    else Client("ip", c.ip)
  }

  /** The tokens name the same user; or neither names one and they name the same viewer; or neither names either and
      the addresses are the same. */
  predicate SameClient(x: Context, y: Context) {
    if x.userId.Some? || y.userId.Some? then x.userId == y.userId
    else if x.viewerId.Some? || y.viewerId.Some? then x.viewerId == y.viewerId
    else x.ip == y.ip
  }

  const KINDS: set<string> := {"user", "viewer", "ip"}

  function Scope(prefix: string, bucket: string): string {
    if bucket == "" then prefix else prefix + ":" + bucket
  }

  function ClientKey(prefix: string, bucket: string, c: Context): string {
    var scope := Scope(prefix, bucket);
    if c.userId.Some? then scope + ":user:" + c.userId.value
    else if c.viewerId.Some? then scope + ":viewer:" + c.viewerId.value
    else scope + ":ip:" + c.ip
  }

  function CustomKey(prefix: string, key: string): string { prefix + ":custom:" + key }

  /** A bucket name that cannot be taken for a kind of client with free ids or for the custom keys. */
  predicate ProperBucket(bucket: string) { ColonFree(bucket) && bucket !in {"user", "viewer", "custom"} }

  /** The part of a key after the prefix and its colon. */
  function Tail(bucket: string, c: Client): string {
    var own := c.kind + ":" + c.id;
    if bucket == "" then own else bucket + ":" + own
  }

  lemma KeyShape(prefix: string, bucket: string, c: Context)
    ensures ClientKey(prefix, bucket, c) == prefix + ":" + Tail(bucket, Identity(c))
  {
    var client := Identity(c);
    var own := client.kind + ":" + client.id;
    ScopedKey(Scope(prefix, bucket), c);
    if bucket != "" {
      Regrouped(prefix, bucket, own);
    }
  }

  lemma ScopedKey(scope: string, c: Context)
    ensures var client := Identity(c);
            (if c.userId.Some? then scope + ":user:" + c.userId.value
             else if c.viewerId.Some? then scope + ":viewer:" + c.viewerId.value
             else scope + ":ip:" + c.ip)
            == scope + ":" + (client.kind + ":" + client.id)
  {
    if c.userId.Some? {
      Separated(scope, ":user:", "user", c.userId.value);
    } else if c.viewerId.Some? {
      Separated(scope, ":viewer:", "viewer", c.viewerId.value);
    } else {
      Separated(scope, ":ip:", "ip", c.ip);
    }
  }

  lemma Separated(scope: string, separator: string, kind: string, id: string)
    requires separator == ":" + kind + ":"
    ensures scope + separator + id == scope + ":" + (kind + ":" + id)
  {
  }

  lemma Regrouped(prefix: string, bucket: string, own: string)
    ensures (prefix + ":" + bucket) + ":" + own == prefix + ":" + (bucket + ":" + own)
  {
  }

  lemma SamePrefix(prefix: string, x: string, y: string)
    ensures prefix + ":" + x == prefix + ":" + y <==> x == y
  {
    assert (prefix + ":" + x)[|prefix| + 1..] == x && (prefix + ":" + y)[|prefix| + 1..] == y;
  }

  /** In one bucket, whatever its name, two requests share a counter exactly if they are the same client. */
  lemma SameBucketKeys(prefix: string, bucket: string, x: Context, y: Context)
    ensures ClientKey(prefix, bucket, x) == ClientKey(prefix, bucket, y) <==> SameClient(x, y)
  {
    KeyShape(prefix, bucket, x);
    KeyShape(prefix, bucket, y);
    var cx, cy := Identity(x), Identity(y);
    SamePrefix(prefix, Tail(bucket, cx), Tail(bucket, cy));
    FirstField(cx.kind, cx.id, cy.kind, cy.id);
    SamePrefix(bucket, cx.kind + ":" + cx.id, cy.kind + ":" + cy.id);
  }

  /** No address reads like a kind of client and an id. */
  lemma AddressIsNoClient(ip: Address, kind: string, id: string)
    requires kind in KINDS
    ensures ip != kind + ":" + id
  {
    var s := kind + ":" + id;
    assert s[0] in s && s[1] in s;
    assert s[0] == kind[0] && (kind == "ip" || s[0] in "uv");
    assert kind == "ip" ==> s[0] == 'i';
  }

  lemma BucketOrKindDiffers(b: string, x: Context, d: string, y: Context)
    requires ProperBucket(b) && ProperBucket(d) && b != d && b != ""
    ensures Tail(b, Identity(x)) != Tail(d, Identity(y))
  {
    var cx, cy := Identity(x), Identity(y);
    var restX := cx.kind + ":" + cx.id;
    assert Tail(b, cx) == b + ":" + restX;
    if d == "" {
      FirstField(b, restX, cy.kind, cy.id);
      if cy.kind == "ip" {
        AddressIsNoClient(cy.id, cx.kind, cx.id);
      }
    } else {
      FirstField(b, restX, d, cy.kind + ":" + cy.id);
    }
  }

  /** Across proper buckets, the unnamed one included, only the same client in the same bucket shares one. */
  lemma AcrossBuckets(prefix: string, b: string, x: Context, d: string, y: Context)
    requires ProperBucket(b) && ProperBucket(d)
    ensures ClientKey(prefix, b, x) == ClientKey(prefix, d, y) <==> b == d && SameClient(x, y)
  {
    if b == d {
      SameBucketKeys(prefix, b, x, y);
    } else {
      KeyShape(prefix, b, x);
      KeyShape(prefix, d, y);
      SamePrefix(prefix, Tail(b, Identity(x)), Tail(d, Identity(y)));
      if b != "" {
        BucketOrKindDiffers(b, x, d, y);
      } else {
        BucketOrKindDiffers(d, y, b, x);
      }
    }
  }

  lemma CustomKeysAreApart(prefix: string, bucket: string, c: Context, key: string)
    requires ProperBucket(bucket)
    ensures ClientKey(prefix, bucket, c) != CustomKey(prefix, key)
  {
    KeyShape(prefix, bucket, c);
    var client := Identity(c);
    assert CustomKey(prefix, key) == prefix + ":" + ("custom" + ":" + key) by {
      assert ":custom:" == ":" + "custom" + ":";
    }
    SamePrefix(prefix, Tail(bucket, client), "custom" + ":" + key);
    var first := if bucket == "" then client.kind else bucket;
    var rest := if bucket == "" then client.id else client.kind + ":" + client.id;
    assert Tail(bucket, client) == first + ":" + rest;
    FirstField(first, rest, "custom", key);
  }

  /** A request in the bucket shares a counter with a client outside any bucket or with a custom key. */
  ghost predicate Leaks(prefix: string, bucket: string) {
    || (exists x: Context, y: Context :: ClientKey(prefix, bucket, x) == ClientKey(prefix, "", y))
    || (exists x: Context, key: string :: ClientKey(prefix, bucket, x) == CustomKey(prefix, key))
  }

  lemma ProperBucketIsTight(prefix: string, bucket: string)
    requires bucket != "" && ProperBucket(bucket)
    ensures !Leaks(prefix, bucket)
  {
    forall x: Context, y: Context ensures ClientKey(prefix, bucket, x) != ClientKey(prefix, "", y) {
      AcrossBuckets(prefix, bucket, x, "", y);
    }
    forall x: Context, key: string ensures ClientKey(prefix, bucket, x) != CustomKey(prefix, key) {
      CustomKeysAreApart(prefix, bucket, x, key);
    }
  }

  /** In a bucket named user or viewer, an address shares the counter of the user or viewer with the id
      "ip:<address>" outside any bucket. */
  lemma KindBucketLeaks(prefix: string, bucket: string, ip: Address)
    requires bucket == "user" || bucket == "viewer"
    ensures var x, id := Context(None, None, ip), "ip" + ":" + ip;
            var y := if bucket == "user" then Context(Some(id), None, "") else Context(None, Some(id), "");
            ClientKey(prefix, bucket, x) == ClientKey(prefix, "", y)
  {
    var x, id := Context(None, None, ip), "ip" + ":" + ip;
    var y := if bucket == "user" then Context(Some(id), None, "") else Context(None, Some(id), "");
    KeyShape(prefix, bucket, x);
    KeyShape(prefix, "", y);
    assert Identity(x) == Client("ip", ip) && Identity(y) == Client(bucket, id);
  }

  lemma CustomBucketLeaks(prefix: string)
    ensures Leaks(prefix, "custom")
  {
    var x := Context(None, None, "");
    assert ClientKey(prefix, "custom", x) == CustomKey(prefix, "ip:");
  }

  /** A named colon-free bucket is isolated exactly if it is not called user, viewer or custom. */
  lemma BucketIsIsolatedIffProper(prefix: string, bucket: string)
    requires bucket != "" && ColonFree(bucket)
    ensures !Leaks(prefix, bucket) <==> bucket !in {"user", "viewer", "custom"}
  {
    if ProperBucket(bucket) {
      ProperBucketIsTight(prefix, bucket);
    } else if bucket == "custom" {
      CustomBucketLeaks(prefix);
    } else {
      KindBucketLeaks(prefix, bucket, "");
    }
  }
}
