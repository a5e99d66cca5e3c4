/** The fixed-window rate limiter of the newer service: the client key a
    request is counted under, and the update of that client's bucket. The
    buckets are a map from client key to bucket, threaded through as state. */
module RateLimit {
  import opened Wrappers
  import opened Strings
  import opened Responses

  // ---------------------------------------------------------------------
  // Client key

  /** The value of an `X-Forwarded-For` header: one text or a list. */
  datatype Header = Text(s: string) | List(items: seq<string>)

  /** The first hop of the header: the first list element, or the text
      before the first comma, trimmed; nothing when there is no header. */
  function FirstHop(xff: Option<Header>): string {
    match xff
    case None => ""
    case Some(List(items)) => if |items| > 0 then items[0] else ""
    case Some(Text(s)) => JsTrim(BeforeFirst(s, ','))
  }

  /** The lower-case header if present, else the capitalised one; then the
      first hop, else `req.ip`, else the socket address, else `''`. */
  function ClientKey(xffLower: Option<Header>, xffUpper: Option<Header>,
                     ip: Option<string>, socketAddress: Option<string>): (key: string)
    ensures var hop := FirstHop(if xffLower.Some? then xffLower else xffUpper);
      (hop != "" ==> key == hop)
      && (hop == "" && ip.Some? && ip.value != "" ==> key == ip.value)
      && (hop == "" && (ip.None? || ip.value == "") && socketAddress.Some? ==> key == socketAddress.value)
      && (hop == "" && (ip.None? || ip.value == "") && socketAddress.None? ==> key == "")
  {
    var hop := FirstHop(if xffLower.Some? then xffLower else xffUpper);
    if hop != "" then hop
    else if ip.Some? && ip.value != "" then ip.value
    else if socketAddress.Some? && socketAddress.value != "" then socketAddress.value
    else ""
  }

  /** A textual header counts under its first hop: no comma, no surrounding
      whitespace, and a prefix of the header once leading whitespace is
      skipped. */
  lemma FirstHopShape(s: string)
    ensures ',' !in FirstHop(Some(Text(s)))
    ensures NoEdgeSpace(FirstHop(Some(Text(s))), IsJsSpace)
    ensures exists a: nat, b: nat :: a <= b <= |s| && FirstHop(Some(Text(s))) == s[a..b]
  {
    var before := BeforeFirst(s, ',');
    var hop := JsTrim(before);
    assert FirstHop(Some(Text(s))) == hop;
    assert hop == Trim(before, IsJsSpace);
    var a: nat, b: nat :| a <= b <= |before| && hop == before[a..b];
    SliceOfPrefix(s, before, a, b);
    SliceAvoids(before, a, b, ',');
  }

  lemma SliceOfPrefix(s: string, p: string, a: nat, b: nat)
    requires StartsWith(s, p) && a <= b <= |p|
    ensures p[a..b] == s[a..b]
  {
    assert p == s[..|p|];
  }

  lemma SliceAvoids(p: string, a: nat, b: nat, c: char)
    requires c !in p && a <= b <= |p|
    ensures c !in p[a..b]
  {
    forall i | 0 <= i < b - a
      ensures p[a..b][i] != c
    {
      assert p[a..b][i] == p[a + i];
    }
  }

  // ---------------------------------------------------------------------
  // Buckets

  datatype Bucket = Bucket(count: int, resetAt: int)

  type Buckets = map<string, Bucket>

  /** What a request is told: the limit, the remaining requests, the reset
      time in seconds, and whether it is refused with 429. */
  datatype Decision = Decision(limit: int, remaining: int, resetSeconds: int, limited: bool)

  /** The bucket after a request at `now`: a new or expired bucket starts a
      fresh window, and the count goes up by one. */
  function Bump(b: Option<Bucket>, now: int, windowMs: int): Bucket {
    var start := if b.None? then Bucket(0, now + windowMs) else b.value;
    var current := if now > start.resetAt then Bucket(0, now + windowMs) else start;
    current.(count := current.count + 1)
  }

  /** One request from client `key` at time `now`. */
  function Hit(buckets: Buckets, key: string, now: int, windowMs: int, max: int): (r: (Buckets, Decision))
    ensures key in r.0 && r.0[key] == Bump(if key in buckets then Some(buckets[key]) else None, now, windowMs)
    ensures forall k | k != key :: (k in r.0 <==> k in buckets) && (k in buckets ==> r.0[k] == buckets[k])
    ensures r.1.limited <==> r.0[key].count > max
    ensures r.1.remaining >= 0 && r.1.remaining == if max - r.0[key].count > 0 then max - r.0[key].count else 0
    ensures r.1.limit == max
    ensures r.1.resetSeconds * 1000 <= r.0[key].resetAt < r.1.resetSeconds * 1000 + 1000
  {
    var b := Bump(if key in buckets then Some(buckets[key]) else None, now, windowMs);
    var remaining := if max - b.count > 0 then max - b.count else 0;
    (buckets[key := b], Decision(max, remaining, b.resetAt / 1000, b.count > max))
  }

  /** A new client, and a client whose window has passed, start a window at
      `now` with count 1; at exactly the reset time the window is kept and
      the count goes up by one. */
  lemma BumpWindow(b: Option<Bucket>, now: int, windowMs: int)
    ensures b.None? || now > b.value.resetAt ==> Bump(b, now, windowMs) == Bucket(1, now + windowMs)
    ensures b.Some? && now <= b.value.resetAt
            ==> Bump(b, now, windowMs) == Bucket(b.value.count + 1, b.value.resetAt)
  {
  }

  /** A refused request gets 429 RATE_LIMITED; any other goes on to the
      route. */
  function Refusal(d: Decision): (r: Option<Response>)
    ensures r.Some? <==> d.limited
    ensures r.Some? ==> r.value.Error? && r.value.status == 429 && r.value.code == "RATE_LIMITED"
                        && r.value.message == "Too many requests"
  {
    if d.limited then Some(Error(429, "RATE_LIMITED", "Too many requests")) else None
  }

  /** Within one window a client is let through exactly `max` times: the
      request that brings the count above `max` is refused, with nothing
      remaining. */
  lemma RefusedAboveMax(buckets: Buckets, key: string, now: int, windowMs: int, max: int)
    requires key in buckets && now <= buckets[key].resetAt && buckets[key].count >= max
    ensures var (after, d) := Hit(buckets, key, now, windowMs, max);
      Refusal(d).Some? && d.remaining == 0 && after[key].resetAt == buckets[key].resetAt
  {
    BumpWindow(Some(buckets[key]), now, windowMs);
  }

  // ---------------------------------------------------------------------
  // A run of requests from one client

  /** The buckets after `times.len` requests from `key`, and how many of
      them were let through. */
  function Run(buckets: Buckets, key: string, times: seq<int>, windowMs: int, max: int): (Buckets, nat)
  {
    if |times| == 0 then (buckets, 0)
    else
      var (before, passed) := Run(buckets, key, times[..|times| - 1], windowMs, max);
      var (after, d) := Hit(before, key, times[|times| - 1], windowMs, max);
      (after, if d.limited then passed else passed + 1)
  }

  /** Requests from a new client that all fall within the first request's
      window are counted one by one in that window, and exactly the first
      `max` of them are let through. */
  lemma {:induction false} RunWithinWindow(buckets: Buckets, key: string, times: seq<int>, windowMs: int, max: nat)
    requires key !in buckets && |times| > 0
    requires forall i | 0 <= i < |times| :: times[i] <= times[0] + windowMs
    ensures var (after, passed) := Run(buckets, key, times, windowMs, max);
      key in after && after[key] == Bucket(|times|, times[0] + windowMs)
      && passed == if |times| <= max then |times| else max
  {
    var n := |times|;
    if n == 1 {
      var r := Run(buckets, key, times[..0], windowMs, max);
      assert r == (buckets, 0);
    } else {
      var prefix := times[..n - 1];
      assert prefix[0] == times[0];
      RunWithinWindow(buckets, key, prefix, windowMs, max);
      var (before, passed) := Run(buckets, key, prefix, windowMs, max);
      BumpWindow(Some(before[key]), times[n - 1], windowMs);
    }
  }

  /** Requests from other clients never touch a client's bucket. */
  lemma {:induction false} RunLeavesOthers(buckets: Buckets, key: string, times: seq<int>, windowMs: int, max: int,
                                           other: string)
    requires other != key
    ensures var after := Run(buckets, key, times, windowMs, max).0;
      (other in after <==> other in buckets) && (other in buckets ==> after[other] == buckets[other])
  {
    if |times| > 0 {
      RunLeavesOthers(buckets, key, times[..|times| - 1], windowMs, max, other);
    }
  }
}
