/** The in-memory login limiter: fixed windows on three keys, with a purge every thousand
    checks. Times are whole milliseconds; addresses and names are normalised digests. */
module RateLimit {
  datatype Key = Pair(ip: string, user: string) | Ip(ip: string) | User(user: string)

  datatype Limits = Limits(window: int, perPair: int, perIp: int, perUser: int)

  datatype Bucket = Bucket(count: nat, expires: int)

  type Buckets = map<Key, Bucket>

  datatype Check = Check(now: int, ip: string, user: string)

  datatype Verdict = Accepted | Limited(retryAfter: int)

  const PURGE_EVERY := 1000

  function Keys(c: Check): (ks: seq<Key>) { [Pair(c.ip, c.user), Ip(c.ip), User(c.user)] }

  function Limit(l: Limits, k: Key): (n: int) {
    match k
    case Pair(_, _) => l.perPair
    case Ip(_) => l.perIp
    case User(_) => l.perUser
  }

  function Max(a: int, b: int): (m: int) { if a >= b then a else b }

  /** `max(int(expires_at - now + 0.999), 1)` in seconds. */
  function Retry(expires: int, now: int): (seconds: int)
    ensures seconds >= 1 && now + 1000 * seconds >= expires
    ensures seconds == 1 || now + 1000 * (seconds - 1) < expires
  {
    Max((expires - now + 999) / 1000, 1)
  }

  /** The bucket of a key after one more check. */
  function Touched(l: Limits, buckets: Buckets, k: Key, now: int): (b: Bucket) {
    if k in buckets && buckets[k].expires > now
    then Bucket(buckets[k].count + 1, buckets[k].expires)
    else Bucket(1, now + l.window)
  }

  function TouchAll(l: Limits, buckets: Buckets, c: Check): (r: Buckets)
    ensures r.Keys == buckets.Keys + {Pair(c.ip, c.user), Ip(c.ip), User(c.user)}
    ensures forall k | k in r :: r[k] == if k in Keys(c) then Touched(l, buckets, k, c.now) else buckets[k]
  {
    buckets[Pair(c.ip, c.user) := Touched(l, buckets, Pair(c.ip, c.user), c.now)]
           [Ip(c.ip) := Touched(l, buckets, Ip(c.ip), c.now)]
           [User(c.user) := Touched(l, buckets, User(c.user), c.now)]
  }

  /** The first `n` keys of a check, one after the other. */
  function TouchFirst(l: Limits, buckets: Buckets, c: Check, n: nat): (r: Buckets)
    requires n <= 3
  {
    if n == 0 then buckets
    else
      var before := TouchFirst(l, buckets, c, n - 1);
      before[Keys(c)[n - 1] := Touched(l, before, Keys(c)[n - 1], c.now)]
  }

  lemma {:induction false} TouchFirstAll(l: Limits, buckets: Buckets, c: Check)
    ensures TouchFirst(l, buckets, c, 3) == TouchAll(l, buckets, c)
  {
    assert TouchFirst(l, buckets, c, 0) == buckets;
    assert TouchFirst(l, buckets, c, 1) == buckets[Keys(c)[0] := Touched(l, buckets, Keys(c)[0], c.now)];
  }

  function Live(buckets: Buckets, now: int): (r: Buckets) {
    map k | k in buckets && buckets[k].expires > now :: buckets[k]
  }

  predicate Over(l: Limits, buckets: Buckets, k: Key) {
    k in buckets && buckets[k].count > Limit(l, k)
  }

  /** Refused if some key is over its limit; the delay covers the longest of the windows. */
  function Judge(l: Limits, after: Buckets, c: Check): (v: Verdict)
    requires forall k | k in Keys(c) :: k in after
  {
    var ks := Keys(c);
    assert ks[0] in ks && ks[1] in ks && ks[2] in ks;
    if Over(l, after, ks[0]) || Over(l, after, ks[1]) || Over(l, after, ks[2])
    then Limited(Max(Max(Retry(after[ks[0]].expires, c.now), Retry(after[ks[1]].expires, c.now)), Retry(after[ks[2]].expires, c.now)))
    else Accepted
  }

  /** The counts and delays collected for the keys so far. */
  predicate Tallied(buckets: Buckets, keys: seq<Key>, counts: seq<nat>, retries: seq<int>, now: int) {
    && |counts| == |retries| == |keys|
    && (forall j | 0 <= j < |keys| :: keys[j] in buckets && counts[j] == buckets[keys[j]].count && retries[j] == Retry(buckets[keys[j]].expires, now))
  }

  lemma TalliedNext(buckets: Buckets, keys: seq<Key>, counts: seq<nat>, retries: seq<int>, now: int, k: Key, b: Bucket)
    requires Tallied(buckets, keys, counts, retries, now) && k !in keys
    ensures Tallied(buckets[k := b], keys + [k], counts + [b.count], retries + [Retry(b.expires, now)], now)
  {
  }

  /** The delay is the least whole number of seconds, at least one, after which the windows of
      all three keys are over. */
  predicate Covers(buckets: Buckets, c: Check, seconds: int)
    requires Pair(c.ip, c.user) in buckets && Ip(c.ip) in buckets && User(c.user) in buckets
  {
    var a, b, d := buckets[Pair(c.ip, c.user)].expires, buckets[Ip(c.ip)].expires, buckets[User(c.user)].expires;
    var end, before := c.now + 1000 * seconds, c.now + 1000 * (seconds - 1);
    && seconds >= 1 && a <= end && b <= end && d <= end
    && (seconds == 1 || a > before || b > before || d > before)
  }

  /** The three keys count one more in a running window, or one in a new one; of the other keys
      only those whose window is over may be dropped. */
  predicate Counted(l: Limits, before: Buckets, after: Buckets, c: Check) {
    && (forall k | k in {Pair(c.ip, c.user), Ip(c.ip), User(c.user)} ::
          k in after && if k in before && before[k].expires > c.now
                        then after[k] == Bucket(before[k].count + 1, before[k].expires) else after[k] == Bucket(1, c.now + l.window))
    && (forall k | k in after && k !in {Pair(c.ip, c.user), Ip(c.ip), User(c.user)} :: k in before && after[k] == before[k])
    && (forall k | k in before && before[k].expires > c.now :: k in after)
  }

  datatype State = State(buckets: Buckets, checks: nat)

  /** One check, with or without the purge. */
  function CheckTo(l: Limits, s: State, c: Check, purge: bool): (r: (State, Verdict)) {
    var kept := if purge && (s.checks + 1) % PURGE_EVERY == 0 then Live(s.buckets, c.now) else s.buckets;
    var after := TouchAll(l, kept, c);
    (State(after, s.checks + 1), Judge(l, after, c))
  }

  /** The verdict, with the limit of each key written out. */
  predicate Judged(l: Limits, after: Buckets, c: Check, v: Verdict) {
    && Pair(c.ip, c.user) in after && Ip(c.ip) in after && User(c.user) in after
    && (v.Limited? <==>
          after[Pair(c.ip, c.user)].count > l.perPair || after[Ip(c.ip)].count > l.perIp || after[User(c.user)].count > l.perUser)
    && (v.Limited? ==> Covers(after, c, v.retryAfter))
  }

  function KeptAt(s: State, c: Check): (r: Buckets) {
    if (s.checks + 1) % PURGE_EVERY == 0 then Live(s.buckets, c.now) else s.buckets
  }

  lemma CheckParts(l: Limits, s: State, c: Check, r: State, v: Verdict)
    requires (r, v) == CheckTo(l, s, c, true)
    ensures r.buckets == TouchAll(l, KeptAt(s, c), c)
    ensures (forall k | k in Keys(c) :: k in r.buckets) && v == Judge(l, r.buckets, c)
  {
  }

  /** What a check does. */
  lemma CheckMeans(l: Limits, s: State, c: Check, r: State, v: Verdict)
    requires (r, v) == CheckTo(l, s, c, true)
    ensures Counted(l, s.buckets, r.buckets, c) && Judged(l, r.buckets, c, v)
  {
    CheckParts(l, s, c, r, v);
    KeptCounted(l, s.buckets, KeptAt(s, c), c);
    JudgeMeans(l, r.buckets, c, v);
  }

  lemma KeptCounted(l: Limits, before: Buckets, kept: Buckets, c: Check)
    requires kept == before || kept == Live(before, c.now)
    ensures Counted(l, before, TouchAll(l, kept, c), c)
  {
  }

  lemma JudgeMeans(l: Limits, after: Buckets, c: Check, v: Verdict)
    requires (forall k | k in Keys(c) :: k in after) && v == Judge(l, after, c)
    ensures Judged(l, after, c, v)
  {
    var ks := Keys(c);
    assert ks[0] in ks && ks[1] in ks && ks[2] in ks;
  }

  /** The end of `check`: the thresholds, in the order of the keys. */
  method Conclude(l: Limits, c: Check, after: Buckets, counts: seq<nat>, retries: seq<int>) returns (verdict: Verdict)
    requires (forall k | k in Keys(c) :: k in after) && Tallied(after, Keys(c), counts, retries, c.now)
    ensures verdict == Judge(l, after, c) && Judged(l, after, c, verdict)
  {
    if counts[0] > l.perPair || counts[1] > l.perIp || counts[2] > l.perUser {
      verdict := Limited(Max(Max(retries[0], retries[1]), retries[2]));
    } else {
      verdict := Accepted;
    }
    JudgeMeans(l, after, c, Judge(l, after, c));
  }

  class InMemoryLoginRateLimiter {
    const limits: Limits
    var buckets: Buckets
    var checks: nat

    constructor (limits: Limits)
      ensures this.limits == limits && State(buckets, checks) == State(map[], 0)
    {
      this.limits := limits;
      buckets := map[];
      checks := 0;
    }

    method Check(c: Check) returns (verdict: Verdict)
      modifies this
      ensures (State(buckets, checks), verdict) == CheckTo(limits, old(State(buckets, checks)), c, true)
      ensures Pair(c.ip, c.user) in buckets && Ip(c.ip) in buckets && User(c.user) in buckets
      ensures verdict.Limited? <==>
        buckets[Pair(c.ip, c.user)].count > limits.perPair || buckets[Ip(c.ip)].count > limits.perIp || buckets[User(c.user)].count > limits.perUser
      ensures Counted(limits, old(buckets), buckets, c) && checks == old(checks) + 1
      ensures checks % 1000 != 0 ==> forall k | k in old(buckets) :: k in buckets
      ensures checks % 1000 == 0 ==> forall k | k in buckets && k !in {Pair(c.ip, c.user), Ip(c.ip), User(c.user)} :: buckets[k].expires > c.now
      ensures verdict.Limited? ==> Covers(buckets, c, verdict.retryAfter)
    {
      checks := checks + 1;
      if checks % PURGE_EVERY == 0 {
        buckets := Live(buckets, c.now);
      }
      var counts, retries := Tally(c);
      verdict := Conclude(limits, c, buckets, counts, retries);
      CheckMeans(limits, old(State(buckets, checks)), c, State(buckets, checks), verdict);
    }

    /** The loop over the three keys. */
    method Tally(c: Check) returns (counts: seq<nat>, retries: seq<int>)
      modifies this`buckets
      ensures buckets == TouchAll(limits, old(buckets), c) && Tallied(buckets, Keys(c), counts, retries, c.now)
    {
      var keys := Keys(c);
      counts, retries := [], [];
      for i := 0 to 3
        invariant buckets == TouchFirst(limits, old(buckets), c, i)
        invariant Tallied(buckets, keys[..i], counts, retries, c.now)
      {
        var key := keys[i];
        var bucket := if key in buckets then buckets[key] else Bucket(0, c.now + limits.window);
        if bucket.expires <= c.now {
          bucket := Bucket(0, c.now + limits.window);
        }
        bucket := Bucket(bucket.count + 1, bucket.expires);
        TalliedNext(buckets, keys[..i], counts, retries, c.now, key, bucket);
        counts := counts + [bucket.count];
        retries := retries + [Retry(bucket.expires, c.now)];
        assert bucket == Touched(limits, buckets, key, c.now);
        buckets := buckets[key := bucket];
        assert keys[..i + 1] == keys[..i] + [key];
      }
      TouchFirstAll(limits, old(buckets), c);
      assert keys[..3] == keys;
    }
  }

  // ---------------------------------------------------------------- runs

  function After(l: Limits, cs: seq<Check>, purge: bool): (s: State) {
    if cs == [] then State(map[], 0)
    else CheckTo(l, After(l, cs[..|cs| - 1], purge), cs[|cs| - 1], purge).0
  }

  function Verdicts(l: Limits, cs: seq<Check>, purge: bool): (vs: seq<Verdict>)
    ensures |vs| == |cs|
  {
    if cs == [] then []
    else
      var front := cs[..|cs| - 1];
      Verdicts(l, front, purge) + [CheckTo(l, After(l, front, purge), cs[|cs| - 1], purge).1]
  }

  /** A clock that never goes back. */
  predicate Steady(cs: seq<Check>) {
    forall i, j | 0 <= i < j < |cs| :: cs[i].now <= cs[j].now
  }

  // ---------------------------------------------------------------- the purge is invisible

  predicate Same(a: Buckets, b: Buckets, now: int) {
    Live(a, now) == Live(b, now)
  }

  lemma SameAt(a: Buckets, b: Buckets, now: int, k: Key)
    requires Same(a, b, now)
    ensures (k in a && a[k].expires > now) <==> (k in b && b[k].expires > now)
    ensures k in a && a[k].expires > now ==> a[k] == b[k]
  {
    assert k in Live(a, now) <==> k in Live(b, now);
    if k in Live(a, now) { assert Live(a, now)[k] == Live(b, now)[k]; }
  }

  lemma SameLater(a: Buckets, b: Buckets, now: int, later: int)
    requires Same(a, b, now) && now <= later
    ensures Same(a, b, later)
  {
    forall k
      ensures k in Live(a, later) <==> k in Live(b, later)
      ensures k in Live(a, later) ==> Live(a, later)[k] == Live(b, later)[k]
    {
      SameAt(a, b, now, k);
    }
  }

  lemma SameTouched(l: Limits, a: Buckets, b: Buckets, c: Check)
    requires Same(a, b, c.now)
    ensures Same(TouchAll(l, a, c), TouchAll(l, b, c), c.now)
    ensures Judge(l, TouchAll(l, a, c), c) == Judge(l, TouchAll(l, b, c), c)
  {
    var x, y := TouchAll(l, a, c), TouchAll(l, b, c);
    forall k
      ensures k in Live(x, c.now) <==> k in Live(y, c.now)
      ensures k in Live(x, c.now) ==> Live(x, c.now)[k] == Live(y, c.now)[k]
    {
      SameBucket(l, a, b, c, k);
    }
    var ks := Keys(c);
    SameBucket(l, a, b, c, ks[0]);
    SameBucket(l, a, b, c, ks[1]);
    SameBucket(l, a, b, c, ks[2]);
  }

  lemma SameBucket(l: Limits, a: Buckets, b: Buckets, c: Check, k: Key)
    requires Same(a, b, c.now)
    ensures
      var x, y := TouchAll(l, a, c), TouchAll(l, b, c);
      && (k in Keys(c) ==> k in x && k in y && x[k] == y[k])
      && ((k in x && x[k].expires > c.now) <==> (k in y && y[k].expires > c.now))
      && (k in x && x[k].expires > c.now ==> x[k] == y[k])
  {
    SameAt(a, b, c.now, k);
  }

  lemma {:induction false} PurgeKeepsSame(l: Limits, cs: seq<Check>, now: int)
    requires Steady(cs) && (cs != [] ==> cs[|cs| - 1].now <= now)
    ensures Same(After(l, cs, true).buckets, After(l, cs, false).buckets, now)
    ensures After(l, cs, true).checks == After(l, cs, false).checks
    ensures Verdicts(l, cs, true) == Verdicts(l, cs, false)
  {
    if cs != [] {
      var front, c := cs[..|cs| - 1], cs[|cs| - 1];
      PurgeKeepsSame(l, front, c.now);
      var a, b := After(l, front, true), After(l, front, false);
      var kept := if (a.checks + 1) % PURGE_EVERY == 0 then Live(a.buckets, c.now) else a.buckets;
      assert Live(Live(a.buckets, c.now), c.now) == Live(a.buckets, c.now);
      SameTouched(l, kept, b.buckets, c);
      SameLater(TouchAll(l, kept, c), TouchAll(l, b.buckets, c), c.now, now);
    }
  }

  /** Under a clock that never goes back, no sequence of checks can tell the purging limiter
      from one that never purges. */
  lemma {:induction false} PurgeInvisible(l: Limits, cs: seq<Check>)
    requires Steady(cs)
    ensures Verdicts(l, cs, true) == Verdicts(l, cs, false)
  {
    PurgeKeepsSame(l, cs, if cs == [] then 0 else cs[|cs| - 1].now);
  }

  // ---------------------------------------------------------------- at most twice the limit

  predicate Counts(c: Check, v: Verdict, k: Key, from: int, to: int) {
    v == Accepted && k in Keys(c) && from <= c.now < to
  }

  /** How many of the first `n` checks on the key were accepted at a time in [from, to). */
  function AcceptedUpTo(cs: seq<Check>, vs: seq<Verdict>, k: Key, from: int, to: int, n: nat): (r: nat)
    requires |cs| == |vs| && n <= |cs|
  {
    if n == 0 then 0
    else AcceptedUpTo(cs, vs, k, from, to, n - 1) + if Counts(cs[n - 1], vs[n - 1], k, from, to) then 1 else 0
  }

  function AcceptedIn(cs: seq<Check>, vs: seq<Verdict>, k: Key, from: int, to: int): (n: nat)
    requires |cs| == |vs|
  {
    AcceptedUpTo(cs, vs, k, from, to, |cs|)
  }

  lemma {:induction false} CoveredUpTo(cs: seq<Check>, vs: seq<Verdict>, k: Key, from: int, to: int, a: int, b: int, c: int, n: nat)
    requires |cs| == |vs| && n <= |cs| && a <= from && a <= b <= c
    requires forall i | 0 <= i < |cs| && k in Keys(cs[i]) :: cs[i].now < c
    ensures AcceptedUpTo(cs, vs, k, from, to, n) <= AcceptedUpTo(cs, vs, k, a, b, n) + AcceptedUpTo(cs, vs, k, b, c, n)
  {
    if n > 0 {
      assert k in Keys(cs[n - 1]) ==> cs[n - 1].now < c;
      CoveredUpTo(cs, vs, k, from, to, a, b, c, n - 1);
    }
  }

  /** Checks from `a` on, all before `c`: those of one interval are among the two given. */
  lemma {:induction false} Covered(cs: seq<Check>, vs: seq<Verdict>, k: Key, from: int, to: int, a: int, b: int, c: int)
    requires |cs| == |vs| && a <= from && a <= b <= c
    requires forall i | 0 <= i < |cs| && k in Keys(cs[i]) :: cs[i].now < c
    ensures AcceptedIn(cs, vs, k, from, to) <= AcceptedIn(cs, vs, k, a, b) + AcceptedIn(cs, vs, k, b, c)
  {
    CoveredUpTo(cs, vs, k, from, to, a, b, c, |cs|);
  }

  lemma {:induction false} NoneUpTo(cs: seq<Check>, vs: seq<Verdict>, k: Key, from: int, to: int, n: nat)
    requires |cs| == |vs| && n <= |cs|
    requires forall i | 0 <= i < |cs| && k in Keys(cs[i]) :: !(from <= cs[i].now < to)
    ensures AcceptedUpTo(cs, vs, k, from, to, n) == 0
  {
    if n > 0 {
      assert k in Keys(cs[n - 1]) ==> !(from <= cs[n - 1].now < to);
      NoneUpTo(cs, vs, k, from, to, n - 1);
    }
  }

  lemma {:induction false} NoneOutside(cs: seq<Check>, vs: seq<Verdict>, k: Key, from: int, to: int)
    requires |cs| == |vs|
    requires forall i | 0 <= i < |cs| && k in Keys(cs[i]) :: !(from <= cs[i].now < to)
    ensures AcceptedIn(cs, vs, k, from, to) == 0
  {
    NoneUpTo(cs, vs, k, from, to, |cs|);
  }

  lemma {:induction false} SamePrefix(cs: seq<Check>, vs: seq<Verdict>, c: Check, v: Verdict, k: Key, from: int, to: int, n: nat)
    requires |cs| == |vs| && n <= |cs|
    ensures AcceptedUpTo(cs + [c], vs + [v], k, from, to, n) == AcceptedUpTo(cs, vs, k, from, to, n)
  {
    if n > 0 { SamePrefix(cs, vs, c, v, k, from, to, n - 1); }
  }

  lemma {:induction false} AcceptedSnoc(cs: seq<Check>, vs: seq<Verdict>, c: Check, v: Verdict, k: Key, from: int, to: int)
    requires |cs| == |vs|
    ensures AcceptedIn(cs + [c], vs + [v], k, from, to) ==
            AcceptedIn(cs, vs, k, from, to) + if Counts(c, v, k, from, to) then 1 else 0
  {
    SamePrefix(cs, vs, c, v, k, from, to, |cs|);
  }

  function Cap(l: Limits, k: Key): (n: nat) { Max(Limit(l, k), 0) }

  /** The most a key accepts after the check that opens its window. */
  function Rest(l: Limits, k: Key): (n: nat) { Max(Limit(l, k) - 1, 0) }

  predicate AllBefore(cs: seq<Check>, k: Key, end: int) {
    forall i | 0 <= i < |cs| && k in Keys(cs[i]) :: cs[i].now < end
  }

  /** What the bucket of a key says about the accepted checks: at most the limit in this window,
      and one less after its opening check or in the window-long stretch just before it. */
  predicate BucketSays(l: Limits, cs: seq<Check>, vs: seq<Verdict>, k: Key, b: Bucket)
    requires |cs| == |vs|
  {
    var start := b.expires - l.window;
    && b.count >= 1
    && AcceptedIn(cs, vs, k, start, b.expires) <= b.count
    && AcceptedIn(cs, vs, k, start, b.expires) <= Cap(l, k)
    && AcceptedIn(cs, vs, k, start + 1, b.expires) <= b.count - 1
    && AcceptedIn(cs, vs, k, start + 1, b.expires) <= Rest(l, k)
    && AcceptedIn(cs, vs, k, start - l.window + 1, start) <= Rest(l, k)
    && AllBefore(cs, k, b.expires)
  }

  predicate Touches(cs: seq<Check>, k: Key) {
    exists i :: 0 <= i < |cs| && k in Keys(cs[i])
  }

  predicate KeyTracked(l: Limits, cs: seq<Check>, vs: seq<Verdict>, buckets: Buckets, k: Key)
    requires |cs| == |vs|
  {
    && (Touches(cs, k) ==> k in buckets)
    && (k in buckets ==> cs != [] && buckets[k].expires - l.window <= cs[|cs| - 1].now && BucketSays(l, cs, vs, k, buckets[k]))
  }

  ghost predicate KeyOk(l: Limits, cs: seq<Check>, vs: seq<Verdict>, buckets: Buckets, k: Key)
    requires |cs| == |vs|
  {
    && KeyTracked(l, cs, vs, buckets, k)
    && (forall t: int :: AcceptedFrom(l, cs, vs, k, t) <= Cap(l, k) + Rest(l, k))
  }

  /** Accepted checks in the window-long interval from `t`. */
  function AcceptedFrom(l: Limits, cs: seq<Check>, vs: seq<Verdict>, k: Key, t: int): (n: nat)
    requires |cs| == |vs|
  {
    AcceptedIn(cs, vs, k, t, t + l.window)
  }

  /** An interval that starts at most one window before the bucket's. */
  lemma {:induction false} RecentBound(l: Limits, cs: seq<Check>, vs: seq<Verdict>, k: Key, b: Bucket, t: int)
    requires |cs| == |vs| && l.window > 0 && BucketSays(l, cs, vs, k, b) && b.expires - l.window - l.window < t
    ensures AcceptedFrom(l, cs, vs, k, t) <= Cap(l, k) + Rest(l, k)
  {
    var start := b.expires - l.window;
    Covered(cs, vs, k, t, t + l.window, start - l.window + 1, start, b.expires);
  }

  /** One more check on the key within the window. */
  lemma {:induction false} SameWindow(l: Limits, cs: seq<Check>, vs: seq<Verdict>, k: Key, b: Bucket, c: Check, v: Verdict)
    requires |cs| == |vs| && l.window > 0 && BucketSays(l, cs, vs, k, b) && k in Keys(c)
    requires b.expires - l.window <= c.now < b.expires && (v == Accepted ==> b.count + 1 <= Limit(l, k))
    ensures BucketSays(l, cs + [c], vs + [v], k, Bucket(b.count + 1, b.expires))
  {
    var start := b.expires - l.window;
    AcceptedSnoc(cs, vs, c, v, k, start, b.expires);
    AcceptedSnoc(cs, vs, c, v, k, start + 1, b.expires);
    AcceptedSnoc(cs, vs, c, v, k, start - l.window + 1, start);
  }

  /** The check that opens a window: everything before it lies in older ones. */
  lemma {:induction false} NewWindow(l: Limits, cs: seq<Check>, vs: seq<Verdict>, k: Key, b: Bucket, c: Check, v: Verdict)
    requires |cs| == |vs| && l.window > 0 && k in Keys(c) && AllBefore(cs, k, c.now)
    requires Touches(cs, k) ==> BucketSays(l, cs, vs, k, b) && b.expires <= c.now
    requires v == Accepted ==> 1 <= Limit(l, k)
    ensures BucketSays(l, cs + [c], vs + [v], k, Bucket(1, c.now + l.window))
  {
    AcceptedSnoc(cs, vs, c, v, k, c.now, c.now + l.window);
    AcceptedSnoc(cs, vs, c, v, k, c.now + 1, c.now + l.window);
    AcceptedSnoc(cs, vs, c, v, k, c.now - l.window + 1, c.now);
    NoneOutside(cs, vs, k, c.now, c.now + l.window);
    NoneOutside(cs, vs, k, c.now + 1, c.now + l.window);
    if Touches(cs, k) {
      var start := b.expires - l.window;
      Covered(cs, vs, k, c.now - l.window + 1, c.now, start + 1, start + 1, b.expires);
      NoneOutside(cs, vs, k, start + 1, start + 1);
    } else {
      NoneOutside(cs, vs, k, c.now - l.window + 1, c.now);
    }
  }

  /** The touched bucket of a key after one more check with verdict `v`. */
  lemma {:induction false} TouchedSays(l: Limits, cs: seq<Check>, vs: seq<Verdict>, buckets: Buckets, k: Key, c: Check, v: Verdict, b: Bucket)
    requires |cs| == |vs| && l.window > 0 && KeyTracked(l, cs, vs, buckets, k) && k in Keys(c)
    requires (cs != [] ==> cs[|cs| - 1].now <= c.now) && b == Touched(l, buckets, k, c.now)
    requires v == Accepted ==> b.count <= Limit(l, k)
    ensures BucketSays(l, cs + [c], vs + [v], k, b) && b.expires - l.window <= c.now
  {
    if k in buckets && buckets[k].expires > c.now {
      assert b == Bucket(buckets[k].count + 1, buckets[k].expires);
      SameWindow(l, cs, vs, k, buckets[k], c, v);
    } else {
      assert b == Bucket(1, c.now + l.window);
      OpensWindow(l, cs, vs, buckets, k, c, v);
    }
  }

  lemma {:induction false} OpensWindow(l: Limits, cs: seq<Check>, vs: seq<Verdict>, buckets: Buckets, k: Key, c: Check, v: Verdict)
    requires |cs| == |vs| && l.window > 0 && KeyTracked(l, cs, vs, buckets, k) && k in Keys(c)
    requires (k in buckets ==> buckets[k].expires <= c.now) && (v == Accepted ==> 1 <= Limit(l, k))
    ensures BucketSays(l, cs + [c], vs + [v], k, Bucket(1, c.now + l.window))
  {
    EarlierBefore(l, cs, vs, buckets, k, c);
    NewWindow(l, cs, vs, k, if k in buckets then buckets[k] else Bucket(0, 0), c, v);
  }

  lemma {:induction false} EarlierBefore(l: Limits, cs: seq<Check>, vs: seq<Verdict>, buckets: Buckets, k: Key, c: Check)
    requires |cs| == |vs| && KeyTracked(l, cs, vs, buckets, k) && (k in buckets ==> buckets[k].expires <= c.now)
    ensures AllBefore(cs, k, c.now) && (k !in buckets ==> !Touches(cs, k))
  {
    if k !in buckets { assert forall i | 0 <= i < |cs| :: k !in Keys(cs[i]); }
  }

  lemma AcceptedWithin(l: Limits, buckets: Buckets, k: Key, c: Check)
    requires k in Keys(c)
    ensures
      var after := TouchAll(l, buckets, c);
      after[k] == Touched(l, buckets, k, c.now) && (Judge(l, after, c) == Accepted ==> after[k].count <= Limit(l, k))
  {
  }

  /** A check on other keys changes nothing for this one. */
  lemma {:induction false} OtherKey(l: Limits, cs: seq<Check>, vs: seq<Verdict>, k: Key, b: Bucket, c: Check, v: Verdict)
    requires |cs| == |vs| && BucketSays(l, cs, vs, k, b) && k !in Keys(c)
    ensures BucketSays(l, cs + [c], vs + [v], k, b)
  {
    var start := b.expires - l.window;
    AcceptedSnoc(cs, vs, c, v, k, start, b.expires);
    AcceptedSnoc(cs, vs, c, v, k, start + 1, b.expires);
    AcceptedSnoc(cs, vs, c, v, k, start - l.window + 1, start);
  }

  lemma {:induction false} WindowStep(l: Limits, cs: seq<Check>, vs: seq<Verdict>, k: Key, c: Check, v: Verdict, b: Bucket, t: int)
    requires |cs| == |vs| && l.window > 0 && AcceptedFrom(l, cs, vs, k, t) <= Cap(l, k) + Rest(l, k)
    requires k in Keys(c) ==> BucketSays(l, cs + [c], vs + [v], k, b) && b.expires - l.window <= c.now
    ensures AcceptedFrom(l, cs + [c], vs + [v], k, t) <= Cap(l, k) + Rest(l, k)
  {
    AcceptedSnoc(cs, vs, c, v, k, t, t + l.window);
    if Counts(c, v, k, t, t + l.window) {
      RecentBound(l, cs + [c], vs + [v], k, b, t);
    }
  }

  lemma {:induction false} KeyStep(l: Limits, cs: seq<Check>, vs: seq<Verdict>, buckets: Buckets, k: Key, c: Check)
    requires |cs| == |vs| && l.window > 0 && KeyOk(l, cs, vs, buckets, k)
    requires cs != [] ==> cs[|cs| - 1].now <= c.now
    ensures
      var after := TouchAll(l, buckets, c);
      KeyOk(l, cs + [c], vs + [Judge(l, after, c)], after, k)
  {
    var after := TouchAll(l, buckets, c);
    var v := Judge(l, after, c);
    assert Touches(cs + [c], k) ==> Touches(cs, k) || k in Keys(c);
    if k in Keys(c) {
      AcceptedWithin(l, buckets, k, c);
      TouchedSays(l, cs, vs, buckets, k, c, v, after[k]);
    } else if k in buckets {
      OtherKey(l, cs, vs, k, buckets[k], c, v);
    }
    forall t: int
      ensures AcceptedFrom(l, cs + [c], vs + [v], k, t) <= Cap(l, k) + Rest(l, k)
    {
      WindowStep(l, cs, vs, k, c, v, if k in after then after[k] else Bucket(0, 0), t);
    }
  }

  function Last(cs: seq<Check>): (c: Check)
    requires cs != []
  {
    cs[|cs| - 1]
  }

  lemma {:induction false} LastCheck(l: Limits, cs: seq<Check>)
    requires cs != []
    ensures
      var front, c := cs[..|cs| - 1], cs[|cs| - 1];
      var after := TouchAll(l, After(l, front, false).buckets, c);
      After(l, cs, false).buckets == after && Verdicts(l, cs, false) == Verdicts(l, front, false) + [Judge(l, after, c)]
  {
  }

  lemma {:induction false} KeyCarried(l: Limits, cs: seq<Check>, vs: seq<Verdict>, buckets: Buckets, front: seq<Verdict>, before: Buckets, k: Key)
    requires cs != [] && Steady(cs) && |front| == |cs| - 1 && l.window > 0 && KeyOk(l, cs[..|cs| - 1], front, before, k)
    requires buckets == TouchAll(l, before, Last(cs)) && vs == front + [Judge(l, buckets, Last(cs))]
    ensures KeyOk(l, cs, vs, buckets, k)
  {
    KeyStep(l, cs[..|cs| - 1], front, before, k, Last(cs));
    assert cs[..|cs| - 1] + [Last(cs)] == cs;
  }

  lemma {:induction false} KeyAlways(l: Limits, cs: seq<Check>, k: Key) returns (vs: seq<Verdict>, buckets: Buckets)
    requires Steady(cs) && l.window > 0
    ensures vs == Verdicts(l, cs, false) && buckets == After(l, cs, false).buckets && KeyOk(l, cs, vs, buckets, k)
  {
    if cs == [] {
      vs, buckets := [], map[];
      NothingYet(l, k);
    } else {
      var front, before := KeyAlways(l, cs[..|cs| - 1], k);
      LastCheck(l, cs);
      buckets := TouchAll(l, before, Last(cs));
      vs := front + [Judge(l, buckets, Last(cs))];
      KeyCarried(l, cs, vs, buckets, front, before, k);
    }
  }

  lemma NothingYet(l: Limits, k: Key)
    ensures KeyOk(l, [], [], map[], k)
  {
  }

  lemma {:induction false} KeyBound(l: Limits, cs: seq<Check>, vs: seq<Verdict>, buckets: Buckets, k: Key, t: int)
    requires |cs| == |vs| && KeyOk(l, cs, vs, buckets, k)
    ensures AcceptedFrom(l, cs, vs, k, t) <= Cap(l, k) + Rest(l, k)
  {
  }

  lemma {:induction false} NoWindow(l: Limits, cs: seq<Check>, vs: seq<Verdict>, k: Key, t: int)
    requires |cs| == |vs| && l.window <= 0
    ensures AcceptedFrom(l, cs, vs, k, t) == 0
  {
    NoneOutside(cs, vs, k, t, t + l.window);
  }

  lemma {:induction false} UnpurgedBurst(l: Limits, cs: seq<Check>, k: Key, t: int)
    requires Steady(cs)
    ensures AcceptedFrom(l, cs, Verdicts(l, cs, false), k, t) <= Cap(l, k) + Rest(l, k)
  {
    if l.window > 0 {
      var vs, buckets := KeyAlways(l, cs, k);
      KeyBound(l, cs, vs, buckets, k, t);
    } else {
      NoWindow(l, cs, Verdicts(l, cs, false), k, t);
    }
  }

  /** For every key with a positive limit, any half-open interval of one window length holds at
      most one less than twice the limit of accepted checks; with no positive limit, none. */
  lemma {:induction false} BurstBound(l: Limits, cs: seq<Check>, k: Key, t: int)
    requires Steady(cs)
    ensures AcceptedFrom(l, cs, Verdicts(l, cs, true), k, t) <= Max(2 * Limit(l, k) - 1, 0)
  {
    PurgeInvisible(l, cs);
    UnpurgedBurst(l, cs, k, t);
  }

  /** What counts for a pair counts for its address and its user name too. */
  lemma {:induction false} PairWithin(cs: seq<Check>, vs: seq<Verdict>, ip: string, user: string, from: int, to: int, n: nat)
    requires |cs| == |vs| && n <= |cs|
    ensures AcceptedUpTo(cs, vs, Pair(ip, user), from, to, n) <= AcceptedUpTo(cs, vs, Ip(ip), from, to, n)
    ensures AcceptedUpTo(cs, vs, Pair(ip, user), from, to, n) <= AcceptedUpTo(cs, vs, User(user), from, to, n)
  {
    if n > 0 {
      PairWithin(cs, vs, ip, user, from, to, n - 1);
      var c := cs[n - 1];
      var ks := Keys(c);
      assert ks[0] == Pair(c.ip, c.user) && ks[1] == Ip(c.ip) && ks[2] == User(c.user);
    }
  }

  predicate Roomy(l: Limits) {
    l.perPair >= 1 && l.perIp >= 1 && l.perUser >= 1
  }

  lemma OneRefused(l: Limits, s: State, c: Check)
    requires !Roomy(l)
    ensures CheckTo(l, s, c, true).1.Limited?
  {
    var (r, v) := CheckTo(l, s, c, true);
    CheckMeans(l, s, c, r, v);
    assert Pair(c.ip, c.user) in {Pair(c.ip, c.user), Ip(c.ip), User(c.user)};
  }

  /** With a limit below one no check at all is accepted. */
  lemma {:induction false} AllRefused(l: Limits, cs: seq<Check>)
    requires !Roomy(l)
    ensures forall i | 0 <= i < |cs| :: Verdicts(l, cs, true)[i].Limited?
  {
    if cs != [] {
      AllRefused(l, cs[..|cs| - 1]);
      OneRefused(l, After(l, cs[..|cs| - 1], true), cs[|cs| - 1]);
    }
  }

  lemma {:induction false} NoneAccepted(cs: seq<Check>, vs: seq<Verdict>, k: Key, from: int, to: int, n: nat)
    requires |cs| == |vs| && n <= |cs| && forall i | 0 <= i < |cs| :: vs[i].Limited?
    ensures AcceptedUpTo(cs, vs, k, from, to, n) == 0
  {
    if n > 0 { NoneAccepted(cs, vs, k, from, to, n - 1); }
  }

  /** What a caller can get in one window's length: none with a limit below one, else twice the
      limit that applies minus one; all three apply to a pair. */
  function Most(l: Limits, k: Key): (n: nat) {
    if !Roomy(l) then 0
    else
      match k
      case Pair(_, _) => 2 * Least(l) - 1
      case Ip(_) => 2 * l.perIp - 1
      case User(_) => 2 * l.perUser - 1
  }

  function Least(l: Limits): (n: int)
    ensures n <= l.perPair && n <= l.perIp && n <= l.perUser && (n == l.perPair || n == l.perIp || n == l.perUser)
  {
    if l.perPair <= l.perIp && l.perPair <= l.perUser then l.perPair else if l.perIp <= l.perUser then l.perIp else l.perUser
  }

  lemma PairFrom(l: Limits, cs: seq<Check>, vs: seq<Verdict>, ip: string, user: string, t: int)
    requires |cs| == |vs|
    ensures AcceptedFrom(l, cs, vs, Pair(ip, user), t) <= AcceptedFrom(l, cs, vs, Ip(ip), t)
    ensures AcceptedFrom(l, cs, vs, Pair(ip, user), t) <= AcceptedFrom(l, cs, vs, User(user), t)
  {
    PairWithin(cs, vs, ip, user, t, t + l.window, |cs|);
  }

  lemma NoneFrom(l: Limits, cs: seq<Check>, vs: seq<Verdict>, k: Key, t: int)
    requires |cs| == |vs| && forall i | 0 <= i < |cs| :: vs[i].Limited?
    ensures AcceptedFrom(l, cs, vs, k, t) == 0
  {
    NoneAccepted(cs, vs, k, t, t + l.window, |cs|);
  }

  /** The bound of one key, with its verdicts. */
  lemma KeyBurst(l: Limits, cs: seq<Check>, k: Key, t: int) returns (vs: seq<Verdict>)
    requires Steady(cs)
    ensures vs == Verdicts(l, cs, true) && AcceptedFrom(l, cs, vs, k, t) <= Max(2 * Limit(l, k) - 1, 0)
    ensures !Roomy(l) ==> AcceptedFrom(l, cs, vs, k, t) == 0
  {
    vs := Verdicts(l, cs, true);
    BurstBound(l, cs, k, t);
    if !Roomy(l) {
      AllRefused(l, cs);
      NoneFrom(l, cs, vs, k, t);
    }
  }

  /** The bound with the three limits written out. */
  lemma {:induction false} BurstBoundPerKey(l: Limits, cs: seq<Check>, k: Key, t: int)
    requires Steady(cs)
    ensures AcceptedFrom(l, cs, Verdicts(l, cs, true), k, t) <= Most(l, k)
  {
    var vs := KeyBurst(l, cs, k, t);
    if k.Pair? {
      vs := KeyBurst(l, cs, Ip(k.ip), t);
      vs := KeyBurst(l, cs, User(k.user), t);
      PairFrom(l, cs, vs, k.ip, k.user, t);
    }
  }

  // ---------------------------------------------------------------- the bound is reached

  datatype Kind = ByPair | ByIp | ByUser

  function Name(n: nat): (s: string)
    ensures |s| == n
  {
    seq(n, i => 'x')
  }

  /** The `n`-th check of a rush: one address with a new name each time, one name from a new
      address each time, or always the same pair. */
  function Who(kind: Kind, n: nat, now: int): (c: Check) {
    match kind
    case ByPair => Check(now, "", "")
    case ByIp => Check(now, "", Name(n))
    case ByUser => Check(now, Name(n), "")
  }

  function Rushed(kind: Kind): (k: Key) {
    match kind
    case ByPair => Pair("", "")
    case ByIp => Ip("")
    case ByUser => User("")
  }

  /** The limit the rush runs into. */
  function RushLimit(l: Limits, kind: Kind): (n: int) {
    match kind
    case ByPair => Least(l)
    case ByIp => l.perIp
    case ByUser => l.perUser
  }

  /** The buckets after `n` checks of a rush; `b` is that of the rushed key. */
  ghost predicate RushOn(kind: Kind, buckets: Buckets, n: nat, b: Bucket) {
    && (n == 0 ==> buckets == map[])
    && (n > 0 ==> Rushed(kind) in buckets && buckets[Rushed(kind)] == b)
    && match kind
       case ByPair => forall k | k in buckets :: k in {Pair("", ""), Ip(""), User("")} && buckets[k] == b
       case ByIp => forall k | k in buckets :: (k.User? || k.Pair? ==> |k.user| < n)
       case ByUser => forall k | k in buckets :: (k.Ip? || k.Pair? ==> |k.ip| < n)
  }

  lemma RushStep(l: Limits, kind: Kind, buckets: Buckets, n: nat, b: Bucket, now: int, r: Bucket)
    requires Roomy(l) && RushOn(kind, buckets, n, b)
    requires (kind.ByPair? && n > 0 ==> buckets.Keys == {Pair("", ""), Ip(""), User("")})
    requires r == (if n > 0 && b.expires > now then Bucket(b.count + 1, b.expires) else Bucket(1, now + l.window)) && r.count <= RushLimit(l, kind)
    ensures
      var c := Who(kind, n, now);
      var after := TouchAll(l, buckets, c);
      && RushOn(kind, after, n + 1, r) && Judge(l, after, c) == Accepted
      && (kind.ByPair? ==> after.Keys == {Pair("", ""), Ip(""), User("")})
  {
    match kind
    case ByPair => assert Name(0) == "";
    case ByIp => RushIp(l, buckets, n, b, now, r);
    case ByUser => RushUser(l, buckets, n, b, now, r);
  }

  lemma RushIp(l: Limits, buckets: Buckets, n: nat, b: Bucket, now: int, r: Bucket)
    requires Roomy(l) && RushOn(ByIp, buckets, n, b)
    requires r == (if n > 0 && b.expires > now then Bucket(b.count + 1, b.expires) else Bucket(1, now + l.window)) && r.count <= l.perIp
    ensures
      var c := Who(ByIp, n, now);
      var after := TouchAll(l, buckets, c);
      RushOn(ByIp, after, n + 1, r) && Judge(l, after, c) == Accepted
  {
    var c := Who(ByIp, n, now);
    var after := TouchAll(l, buckets, c);
    assert Pair("", Name(n)) !in buckets && User(Name(n)) !in buckets;
    assert after[Pair("", Name(n))].count == 1 && after[User(Name(n))].count == 1 && after[Ip("")] == r;
  }

  lemma RushUser(l: Limits, buckets: Buckets, n: nat, b: Bucket, now: int, r: Bucket)
    requires Roomy(l) && RushOn(ByUser, buckets, n, b)
    requires r == (if n > 0 && b.expires > now then Bucket(b.count + 1, b.expires) else Bucket(1, now + l.window)) && r.count <= l.perUser
    ensures
      var c := Who(ByUser, n, now);
      var after := TouchAll(l, buckets, c);
      RushOn(ByUser, after, n + 1, r) && Judge(l, after, c) == Accepted
  {
    var c := Who(ByUser, n, now);
    var after := TouchAll(l, buckets, c);
    assert Pair(Name(n), "") !in buckets && Ip(Name(n)) !in buckets;
    assert after[Pair(Name(n), "")].count == 1 && after[Ip(Name(n))].count == 1 && after[User("")] == r;
  }

  /** One check that opens a window, as many as still fit just before its end, and a full limit
      right after. */
  function RushTime(w: int, limit: int, i: nat): (t: int) {
    if i == 0 then 0 else if i < limit then w - 1 else w
  }

  function RushBucket(w: int, limit: int, n: nat): (b: Bucket) {
    if n <= limit then Bucket(n, w) else Bucket(n - limit, w + w)
  }

  function Rush(kind: Kind, w: int, limit: int, n: nat): (cs: seq<Check>)
    ensures |cs| == n
  {
    if n == 0 then [] else Rush(kind, w, limit, n - 1) + [Who(kind, n - 1, RushTime(w, limit, n - 1))]
  }

  predicate AllAccepted(vs: seq<Verdict>) {
    forall i | 0 <= i < |vs| :: vs[i] == Accepted
  }

  ghost predicate RushState(kind: Kind, buckets: Buckets, n: nat, b: Bucket) {
    RushOn(kind, buckets, n, b) && (kind.ByPair? && n > 0 ==> buckets.Keys == {Pair("", ""), Ip(""), User("")})
  }

  lemma {:induction false} RushAt(kind: Kind, w: int, limit: int, n: nat, i: nat)
    requires i < n
    ensures Rush(kind, w, limit, n)[i] == Who(kind, i, RushTime(w, limit, i))
  {
    if i < n - 1 { RushAt(kind, w, limit, n - 1, i); }
  }

  lemma {:induction false} RushRun(l: Limits, kind: Kind, n: nat, cs: seq<Check>) returns (buckets: Buckets, vs: seq<Verdict>)
    requires Roomy(l) && l.window > 1 && n <= 2 * RushLimit(l, kind) && cs == Rush(kind, l.window, RushLimit(l, kind), n)
    ensures buckets == After(l, cs, false).buckets && vs == Verdicts(l, cs, false)
    ensures RushState(kind, buckets, n, RushBucket(l.window, RushLimit(l, kind), n)) && AllAccepted(vs)
  {
    if n == 0 {
      buckets, vs := map[], [];
      RushNone(kind, RushBucket(l.window, RushLimit(l, kind), 0));
    } else {
      var limit, w := RushLimit(l, kind), l.window;
      var front, c := Rush(kind, w, limit, n - 1), Who(kind, n - 1, RushTime(w, limit, n - 1));
      var before, accepted := RushRun(l, kind, n - 1, front);
      RushSnoc(l, front, c);
      buckets, vs := RushNext(l, kind, n - 1, before, accepted, c);
    }
  }

  lemma RushNone(kind: Kind, b: Bucket)
    ensures RushState(kind, map[], 0, b)
  {
  }

  lemma RushNext(l: Limits, kind: Kind, n: nat, before: Buckets, accepted: seq<Verdict>, c: Check) returns (buckets: Buckets, vs: seq<Verdict>)
    requires Roomy(l) && l.window > 1 && n < 2 * RushLimit(l, kind) && AllAccepted(accepted)
    requires RushState(kind, before, n, RushBucket(l.window, RushLimit(l, kind), n)) && c == Who(kind, n, RushTime(l.window, RushLimit(l, kind), n))
    ensures buckets == TouchAll(l, before, c) && vs == accepted + [Judge(l, buckets, c)]
    ensures RushState(kind, buckets, n + 1, RushBucket(l.window, RushLimit(l, kind), n + 1)) && AllAccepted(vs)
  {
    var limit, w := RushLimit(l, kind), l.window;
    buckets := TouchAll(l, before, c);
    vs := accepted + [Judge(l, buckets, c)];
    RushStep(l, kind, before, n, RushBucket(w, limit, n), RushTime(w, limit, n), RushBucket(w, limit, n + 1));
  }

  lemma {:induction false} RushSnoc(l: Limits, front: seq<Check>, c: Check)
    ensures
      var after := TouchAll(l, After(l, front, false).buckets, c);
      && After(l, front + [c], false).buckets == after
      && Verdicts(l, front + [c], false) == Verdicts(l, front, false) + [Judge(l, after, c)]
  {
    assert (front + [c])[..|front|] == front;
  }

  lemma {:induction false} RushCount(kind: Kind, w: int, limit: int, cs: seq<Check>, vs: seq<Verdict>, n: nat)
    requires w > 1 && |vs| == |cs| && n <= |cs| && AllAccepted(vs)
    requires forall i | 0 <= i < |cs| :: cs[i] == Who(kind, i, RushTime(w, limit, i))
    ensures AcceptedUpTo(cs, vs, Rushed(kind), w - 1, w - 1 + w, n) == if n == 0 then 0 else n - 1
  {
    if n > 0 {
      RushCount(kind, w, limit, cs, vs, n - 1);
      RushKey(kind, n - 1, RushTime(w, limit, n - 1));
    }
  }

  lemma RushKey(kind: Kind, n: nat, now: int)
    ensures Rushed(kind) in Keys(Who(kind, n, now)) && Who(kind, n, now).now == now
  {
    var ks := Keys(Who(kind, n, now));
    assert ks[0] in ks && ks[1] in ks && ks[2] in ks;
  }

  /** The bound is reached for each kind of key, whatever the three limits. */
  lemma {:induction false} BurstReached(l: Limits, kind: Kind) returns (cs: seq<Check>, t: int)
    requires l.window > 1
    ensures Steady(cs)
    ensures AcceptedFrom(l, cs, Verdicts(l, cs, true), Rushed(kind), t) == Most(l, Rushed(kind))
  {
    if Roomy(l) {
      var vs: seq<Verdict>;
      cs, vs, t := RushAll(l, kind);
      RushSteady(kind, l.window, RushLimit(l, kind), cs);
      PurgeInvisible(l, cs);
    } else {
      cs, t := [], 0;
    }
  }

  lemma {:induction false} RushAll(l: Limits, kind: Kind) returns (cs: seq<Check>, vs: seq<Verdict>, t: int)
    requires Roomy(l) && l.window > 1
    ensures vs == Verdicts(l, cs, false) && AcceptedFrom(l, cs, vs, Rushed(kind), t) == 2 * RushLimit(l, kind) - 1
    ensures forall i | 0 <= i < |cs| :: cs[i] == Who(kind, i, RushTime(l.window, RushLimit(l, kind), i))
  {
    var limit, buckets := RushLimit(l, kind), map[];
    cs, t := Rush(kind, l.window, limit, 2 * limit), l.window - 1;
    buckets, vs := RushRun(l, kind, 2 * limit, cs);
    forall i | 0 <= i < |cs| ensures cs[i] == Who(kind, i, RushTime(l.window, limit, i)) { RushAt(kind, l.window, limit, 2 * limit, i); }
    RushCounted(l, kind, cs, vs);
  }

  lemma {:induction false} RushCounted(l: Limits, kind: Kind, cs: seq<Check>, vs: seq<Verdict>)
    requires l.window > 1 && |vs| == |cs| == 2 * RushLimit(l, kind) && |cs| > 0 && AllAccepted(vs)
    requires forall i | 0 <= i < |cs| :: cs[i] == Who(kind, i, RushTime(l.window, RushLimit(l, kind), i))
    ensures AcceptedFrom(l, cs, vs, Rushed(kind), l.window - 1) == |cs| - 1
  {
    RushCount(kind, l.window, RushLimit(l, kind), cs, vs, |cs|);
  }

  lemma RushSteady(kind: Kind, w: int, limit: int, cs: seq<Check>)
    requires w > 1 && forall i | 0 <= i < |cs| :: cs[i] == Who(kind, i, RushTime(w, limit, i))
    ensures Steady(cs)
  {
  }

  // ---------------------------------------------------------------- the returned delay

  lemma ExpiredAccepts(l: Limits, s: State, c: Check, purge: bool)
    requires l.perPair >= 1 && l.perIp >= 1 && l.perUser >= 1
    requires forall k | k in Keys(c) && k in s.buckets :: s.buckets[k].expires <= c.now
    ensures CheckTo(l, s, c, purge).1 == Accepted
  {
    var ks := Keys(c);
    assert ks[0] in ks && ks[1] in ks && ks[2] in ks;
  }

  lemma DelayCovers(l: Limits, s: State, c: Check, purge: bool)
    requires CheckTo(l, s, c, purge).1.Limited?
    ensures
      var (after, v) := CheckTo(l, s, c, purge);
      v.retryAfter >= 1 && forall k | k in Keys(c) :: k in after.buckets && after.buckets[k].expires <= c.now + 1000 * v.retryAfter
  {
  }

  /** A refused member who waits the returned delay, with no other check in between, gets in. */
  lemma {:induction false} WaitingSuffices(l: Limits, cs: seq<Check>, c: Check, later: int)
    requires l.perPair >= 1 && l.perIp >= 1 && l.perUser >= 1
    requires CheckTo(l, After(l, cs, true), c, true).1.Limited?
    requires later >= c.now + 1000 * CheckTo(l, After(l, cs, true), c, true).1.retryAfter
    ensures CheckTo(l, After(l, cs + [c], true), c.(now := later), true).1 == Accepted
  {
    assert (cs + [c])[..|cs|] == cs;
    DelayCovers(l, After(l, cs, true), c, true);
    ExpiredAccepts(l, After(l, cs + [c], true), c.(now := later), true);
  }
}
