/** The rate limiter of the older service. Its buckets, windows and replies
    are those of the newer one; only the client key differs: `req.ip`, else
    the connection's remote address, else the fixed key `unknown`. */
module LegacyRateLimit {
  import opened Wrappers
  import opened RateLimit

  const Unknown := "unknown"

  /** The key a request is counted under; it is never empty. */
  function ClientKey(ip: Option<string>, remoteAddress: Option<string>): (key: string)
    ensures key != ""
    ensures ip.Some? && ip.value != "" ==> key == ip.value
    ensures (ip.None? || ip.value == "") && remoteAddress.Some? && remoteAddress.value != ""
            ==> key == remoteAddress.value
    ensures (ip.None? || ip.value == "") && (remoteAddress.None? || remoteAddress.value == "")
            ==> key == Unknown
  {
    if ip.Some? && ip.value != "" then ip.value
    else if remoteAddress.Some? && remoteAddress.value != "" then remoteAddress.value
    else Unknown
  }

  /** One request: the bucket of its client key is bumped as in the newer
      limiter, and the decision says whether it is refused. */
  function Limit(buckets: Buckets, ip: Option<string>, remoteAddress: Option<string>,
                 now: int, windowMs: int, max: int): (r: (Buckets, Decision))
    ensures var key := ClientKey(ip, remoteAddress);
      key in r.0 && (r.1.limited <==> r.0[key].count > max)
      && (forall k | k != key :: (k in r.0 <==> k in buckets) && (k in buckets ==> r.0[k] == buckets[k]))
  {
    Hit(buckets, ClientKey(ip, remoteAddress), now, windowMs, max)
  }

  /** Clients with no address at all are counted together: a second such
      request within the window finds the first one's count. */
  lemma AnonymousClientsShareBucket(buckets: Buckets, now1: int, now2: int, windowMs: int, max: int)
    ensures var (first, _) := Limit(buckets, None, None, now1, windowMs, max);
      var (second, _) := Limit(first, Some(""), None, now2, windowMs, max);
      now2 <= first[Unknown].resetAt ==> second[Unknown].count == first[Unknown].count + 1
  {
    var (first, _) := Limit(buckets, None, None, now1, windowMs, max);
    BumpWindow(Some(first[Unknown]), now2, windowMs);
  }
}
