// The limiter counts exactly: every call is judged by its place in its own bucket.
module RateLimiter {
  import opened Basics
  import opened Decimals
  import opened TimedCache

  // Traffic on the cache: calls of the limiter, and any other use of other keys.
  datatype Req = Hit(ident: string, limit: int, clock: Clock) | Other(op: Op)

  ghost predicate IsLimiterKey(key: string) {
    exists ident, bucket: nat :: key == LimiterKey(ident, bucket)
  }

  // A call reads a clock that does not run back while it runs, and takes less than one window.
  ghost predicate Plausible(r: Req, window: int) {
    match r
    case Hit(_, _, c) => 0.0 <= c.entry <= c.get <= c.set_ && c.get < c.entry + window as real
    case Other(op) => !IsLimiterKey(op.key)
  }

  ghost predicate Traffic(reqs: seq<Req>, window: int) {
    forall i :: 0 <= i < |reqs| ==> Plausible(reqs[i], window)
  }

  function StepReq(m: Memory, r: Req, window: int): Memory
    requires window > 0 && (r.Hit? ==> r.clock.entry >= 0.0)
  {
    match r
    case Hit(ident, _, c) => AfterHit(m, ident, window, c)
    case Other(op) => Step(m, op)
  }

  ghost function After(m: Memory, reqs: seq<Req>, window: int): Memory
    requires window > 0 && Traffic(reqs, window)
  {
    if reqs == [] then m
    else
      var n := |reqs| - 1;
      assert Plausible(reqs[n], window);
      StepReq(After(m, reqs[..n], window), reqs[n], window)
  }

  // What the limiter answers to request i.
  ghost function VerdictAt(m: Memory, reqs: seq<Req>, window: int, i: nat): Verdict
    requires window > 0 && Traffic(reqs, window) && i < |reqs| && reqs[i].Hit?
  {
    assert Plausible(reqs[i], window);
    HitVerdict(After(m, reqs[..i], window), reqs[i].ident, reqs[i].limit, window, reqs[i].clock)
  }

  // ---------- The reference: counting calls ----------

  predicate InBucket(r: Req, ident: string, bucket: int, window: int)
    requires window > 0
  {
    r.Hit? && r.ident == ident && Bucket(r.clock.entry, window) == bucket
  }

  function Count(reqs: seq<Req>, ident: string, bucket: int, window: int): nat
    requires window > 0
  {
    if reqs == [] then 0
    else
      var n := |reqs| - 1;
      Count(reqs[..n], ident, bucket, window) + if InBucket(reqs[n], ident, bucket, window) then 1 else 0
  }

  ghost predicate Untouched(m: Memory) {
    forall key :: key in m ==> !IsLimiterKey(key)
  }

  // The entry of a bucket holds its count, and outlives the bucket by a whole window.
  ghost predicate EntryOk(m: Memory, ident: string, bucket: nat, window: int, count: nat) {
    var key := LimiterKey(ident, bucket);
    if count == 0 then key !in m
    else key in m && m[key].value == Decimal(count)
         && m[key].expiresAt != 0.0 && m[key].expiresAt >= ((bucket + 2) * window) as real
  }

  ghost predicate Counts(m: Memory, reqs: seq<Req>, window: int)
    requires window > 0
  {
    forall ident, bucket: nat :: EntryOk(m, ident, bucket, window, Count(reqs, ident, bucket, window))
  }

  // ---------- Keys and buckets ----------

  lemma LimiterKeyInjective(a: string, i: nat, b: string, j: nat)
    requires LimiterKey(a, i) == LimiterKey(b, j)
    ensures a == b && i == j
  {
    NoColonInNumeral(Decimal(i));
    NoColonInNumeral(Decimal(j));
    JoinInjective(RATE_LIMIT_PREFIX + ":" + a, Decimal(i), RATE_LIMIT_PREFIX + ":" + b, Decimal(j));
    var p := RATE_LIMIT_PREFIX + ":";
    assert a == (p + a)[|p|..] == (p + b)[|p|..] == b;
    ParseDecimal(i);
    ParseDecimal(j);
  }

  lemma BucketBounds(t: real, window: int)
    requires window > 0 && t >= 0.0
    ensures var b := Bucket(t, window);
            b >= 0 && b * window <= t.Floor < (b + 1) * window && t < ((b + 1) * window) as real
  {
    var now, b := t.Floor, Bucket(t, window);
    assert now == b * window + now % window;
    assert (b + 1) * window == b * window + window;
  }

  // ---------- One request ----------

  // A call reads before the end of the bucket after its own, and what it writes lives at least that long.
  lemma BucketOutlived(window: int, c: Clock)
    requires window > 0 && 0.0 <= c.entry <= c.set_
    ensures var end := ((Bucket(c.entry, window) + 2) * window) as real;
            && 0.0 < end <= c.set_ + (window * 2) as real
            && (c.get < c.entry + window as real ==> c.get < end)
  {
    var b := Bucket(c.entry, window);
    BucketBounds(c.entry, window);
    assert (b + 2) * window == (b + 1) * window + window == b * window + 2 * window;
  }

  lemma HitReads(m: Memory, ident: string, window: int, c: Clock, n: nat)
    requires window > 0 && Plausible(Hit(ident, 0, c), window)
    requires Bucket(c.entry, window) >= 0 && EntryOk(m, ident, Bucket(c.entry, window), window, n)
    ensures CountIn(Read(m, LimiterKey(ident, Bucket(c.entry, window)), c.get)) == Some(n + 1)
  {
    hide LimiterKey, Bucket;
    BucketOutlived(window, c);
    if n > 0 {
      ParseDecimal(n);
    }
  }

  lemma HitCounts(m: Memory, ident: string, limit: int, window: int, c: Clock, n: nat)
    requires window > 0 && Plausible(Hit(ident, limit, c), window)
    requires Bucket(c.entry, window) >= 0 && EntryOk(m, ident, Bucket(c.entry, window), window, n)
    ensures EntryOk(AfterHit(m, ident, window, c), ident, Bucket(c.entry, window), window, n + 1)
    ensures forall key :: key != LimiterKey(ident, Bucket(c.entry, window)) ==>
              (key in AfterHit(m, ident, window, c) <==> key in m) &&
              (key in m ==> AfterHit(m, ident, window, c)[key] == m[key])
    ensures var v := HitVerdict(m, ident, limit, window, c);
            v.Verdict? && v.allowed == (n < limit) && v.reset == window - c.entry.Floor % window
            && v.remaining == (if limit > n + 1 then limit - (n + 1) else 0)
  {
    hide LimiterKey, Bucket, Read, CountIn, Decimal;
    HitReads(m, ident, window, c, n);
    BucketOutlived(window, c);
  }

  // Why a call must not outlast its window: when a bucket's counter stands at n, one more call raises it to
  // n + 1 exactly as long as that call reads it before its expiry. A call stalled beyond it counts afresh.
  lemma CountKeptExactlyWhileLive(m: Memory, ident: string, window: int, c: Clock, n: nat)
    requires window > 0 && n >= 1 && 0.0 <= c.entry <= c.get <= c.set_
    requires Bucket(c.entry, window) >= 0 && EntryOk(m, ident, Bucket(c.entry, window), window, n)
    ensures EntryOk(AfterHit(m, ident, window, c), ident, Bucket(c.entry, window), window, n + 1)
            <==> c.get < m[LimiterKey(ident, Bucket(c.entry, window))].expiresAt
  {
    hide LimiterKey, Bucket;
    BucketOutlived(window, c);
    ParseDecimal(n);
    ParseDecimal(n + 1);
    ParseDecimal(1);
  }

  // What one call leaves: under the key of its identifier and bucket, one more than the number it read there, to
  // expire two windows after it is written. Text that is no number makes the call fail and stays.
  lemma HitWrites(m: Memory, ident: string, limit: int, window: int, c: Clock)
    requires window > 0 && c.entry >= 0.0
    ensures var key := "phonepe:ratelimit:" + ident + ":" + Decimal(c.entry.Floor / window);
            var read := Read(m, key, c.get);
            var m' := AfterHit(m, ident, window, c);
            if read.Some? && read.value != "" && !Numeral(read.value) then
              HitVerdict(m, ident, limit, window, c) == NotANumber && m' == m
            else
              && key in m' && m'[key].expiresAt == c.set_ + 2.0 * window as real
              && m'[key].value == Decimal(if read.Some? && read.value != "" then Parse(read.value) + 1 else 1)
  {
    var key := "phonepe:ratelimit:" + ident + ":" + Decimal(c.entry.Floor / window);
    assert LimiterKey(ident, Bucket(c.entry, window)) == key;
  }

  lemma HitKeepsCounts(m: Memory, reqs: seq<Req>, r: Req, window: int)
    requires window > 0 && Counts(m, reqs, window) && Plausible(r, window) && r.Hit?
    ensures Counts(AfterHit(m, r.ident, window, r.clock), reqs + [r], window)
  {
    hide AfterHit, HitVerdict, LimiterKey;
    var m' := AfterHit(m, r.ident, window, r.clock);
    BucketBounds(r.clock.entry, window);
    var b: nat := Bucket(r.clock.entry, window);
    assert EntryOk(m, r.ident, b, window, Count(reqs, r.ident, b, window));
    HitCounts(m, r.ident, r.limit, window, r.clock, Count(reqs, r.ident, b, window));
    forall ident, bucket: nat
      ensures EntryOk(m', ident, bucket, window, Count(reqs + [r], ident, bucket, window))
    {
      assert (reqs + [r])[..|reqs|] == reqs;
      assert EntryOk(m, ident, bucket, window, Count(reqs, ident, bucket, window));
      if LimiterKey(ident, bucket) == LimiterKey(r.ident, b) {
        LimiterKeyInjective(ident, bucket, r.ident, b);
      } else {
        assert !InBucket(r, ident, bucket, window);
      }
    }
  }

  lemma OtherKeepsCounts(m: Memory, reqs: seq<Req>, r: Req, window: int)
    requires window > 0 && Counts(m, reqs, window) && Plausible(r, window) && r.Other?
    ensures Counts(Step(m, r.op), reqs + [r], window)
  {
    hide LimiterKey;
    forall ident, bucket: nat
      ensures EntryOk(Step(m, r.op), ident, bucket, window, Count(reqs + [r], ident, bucket, window))
    {
      assert (reqs + [r])[..|reqs|] == reqs;
      assert EntryOk(m, ident, bucket, window, Count(reqs, ident, bucket, window));
      assert IsLimiterKey(LimiterKey(ident, bucket));
    }
  }

  lemma {:induction false} CountsAfter(m: Memory, reqs: seq<Req>, window: int)
    requires window > 0 && Traffic(reqs, window) && Untouched(m)
    ensures Counts(After(m, reqs, window), reqs, window)
  {
    hide AfterHit, LimiterKey, Step;
    if reqs == [] {
      forall ident, bucket: nat
        ensures EntryOk(m, ident, bucket, window, 0)
      {
        assert IsLimiterKey(LimiterKey(ident, bucket));
      }
    } else {
      var n := |reqs| - 1;
      assert Plausible(reqs[n], window);
      CountsAfter(m, reqs[..n], window);
      assert reqs == reqs[..n] + [reqs[n]];
      if reqs[n].Hit? {
        HitKeepsCounts(After(m, reqs[..n], window), reqs[..n], reqs[n], window);
      } else {
        OtherKeepsCounts(After(m, reqs[..n], window), reqs[..n], reqs[n], window);
      }
    }
  }

  // ---------- Main results ----------

  // In any traffic, call i is allowed exactly when fewer than its limit of calls by the same identifier came
  // before it in the same bucket; the reset it reports is the distance to the next bucket.
  lemma LimiterExact(m: Memory, reqs: seq<Req>, window: int, i: nat)
    requires window > 0 && Traffic(reqs, window) && Untouched(m) && i < |reqs| && reqs[i].Hit?
    ensures var v := VerdictAt(m, reqs, window, i);
            var r := reqs[i];
            var b := Bucket(r.clock.entry, window);
            var before := Count(reqs[..i], r.ident, b, window);
            && v.Verdict?
            && v.allowed == (before < r.limit)
            && v.remaining == (if r.limit > before + 1 then r.limit - (before + 1) else 0)
            && 1 <= v.reset <= window
            && r.clock.entry.Floor + v.reset == (b + 1) * window
  {
    hide AfterHit, After, Untouched, EntryOk, Count;
    assert Plausible(reqs[i], window);
    var r := reqs[i];
    var b := Bucket(r.clock.entry, window);
    BucketBounds(r.clock.entry, window);
    ResetLands(r.clock.entry, window);
    CountsAfter(m, reqs[..i], window);
    var before := After(m, reqs[..i], window);
    CountsEntry(before, reqs[..i], window, r.ident, b);
    HitCounts(before, r.ident, r.limit, window, r.clock, Count(reqs[..i], r.ident, b, window));
    assert VerdictAt(m, reqs, window, i) == HitVerdict(before, r.ident, r.limit, window, r.clock);
  }

  lemma CountsEntry(m: Memory, reqs: seq<Req>, window: int, ident: string, bucket: nat)
    requires window > 0 && Counts(m, reqs, window)
    ensures EntryOk(m, ident, bucket, window, Count(reqs, ident, bucket, window))
  {
  }

  lemma ResetLands(t: real, window: int)
    requires window > 0 && t >= 0.0
    ensures var reset := window - t.Floor % window;
            1 <= reset <= window && t.Floor + reset == (Bucket(t, window) + 1) * window
  {
    var now, b := t.Floor, Bucket(t, window);
    assert now == b * window + now % window;
    assert (b + 1) * window == b * window + window;
  }

  // ---------- How many calls get through ----------

  ghost predicate OneLimit(reqs: seq<Req>, ident: string, limit: int) {
    forall i :: 0 <= i < |reqs| && reqs[i].Hit? && reqs[i].ident == ident ==> reqs[i].limit == limit
  }

  // The number of allowed calls of an identifier whose entry time satisfies p.
  ghost function Allowed(m: Memory, reqs: seq<Req>, window: int, ident: string, p: real -> bool): nat
    requires window > 0 && Traffic(reqs, window)
  {
    if reqs == [] then 0
    else
      var n := |reqs| - 1;
      Allowed(m, reqs[..n], window, ident, p) +
      if reqs[n].Hit? && reqs[n].ident == ident && p(reqs[n].clock.entry)
         && VerdictAt(m, reqs, window, n).Verdict? && VerdictAt(m, reqs, window, n).allowed
      then 1 else 0
  }

  function Min(a: int, b: int): int {
    if a < b then a else b
  }

  function Positive(limit: int): nat {
    if limit > 0 then limit else 0
  }

  function BucketIs(bucket: int, window: int): real -> bool
    requires window > 0
  {
    (t: real) => Bucket(t, window) == bucket
  }

  // Of n calls in a bucket exactly min(n, limit) are allowed.
  lemma {:induction false} AllowedPerBucket(m: Memory, reqs: seq<Req>, window: int, ident: string,
                                            limit: int, bucket: int)
    requires window > 0 && Traffic(reqs, window) && Untouched(m) && OneLimit(reqs, ident, limit)
    ensures Allowed(m, reqs, window, ident, BucketIs(bucket, window))
         == Min(Count(reqs, ident, bucket, window), Positive(limit))
  {
    hide VerdictAt, Plausible;
    if reqs == [] {
    } else {
      var n := |reqs| - 1;
      AllowedPerBucket(m, reqs[..n], window, ident, limit, bucket);
      if reqs[n].Hit? {
        LimiterExact(m, reqs, window, n);
      }
    }
  }

  lemma {:induction false} AllowedSplits(m: Memory, reqs: seq<Req>, window: int, ident: string,
                                         p: real -> bool, q: real -> bool, r: real -> bool)
    requires window > 0 && Traffic(reqs, window)
    requires forall t :: p(t) ==> q(t) || r(t)
    ensures Allowed(m, reqs, window, ident, p)
         <= Allowed(m, reqs, window, ident, q) + Allowed(m, reqs, window, ident, r)
  {
    hide VerdictAt, Plausible;
    if reqs == [] {
    } else {
      AllowedSplits(m, reqs[..|reqs| - 1], window, ident, p, q, r);
    }
  }

  function Within(from: real, window: int): real -> bool {
    (t: real) => from <= t < from + window as real
  }

  lemma TwoBuckets(from: real, t: real, window: int)
    requires window > 0 && from <= t < from + window as real
    ensures Bucket(t, window) == Bucket(from, window) || Bucket(t, window) == Bucket(from, window) + 1
  {
    var a, c := from.Floor, t.Floor;
    assert a <= c <= a + window;
    var b := a / window;
    assert a == b * window + a % window;
    assert (b + 1) * window == b * window + window;
    QuotientIs(c, window, if c < b * window + window then b else b + 1);
  }

  lemma QuotientIs(c: int, window: int, q: int)
    requires window > 0 && q * window <= c < q * window + window
    ensures c / window == q
  {
    var d := c / window;
    assert c == d * window + c % window;
    assert (d + 1) * window == d * window + window && (q + 1) * window == q * window + window;
    FactorsOrdered(q, d + 1, window);
    FactorsOrdered(d, q + 1, window);
  }

  lemma FactorsOrdered(a: int, b: int, w: int)
    requires w > 0 && a * w < b * w
    ensures a < b
  {
  }

  // Any stretch of one window's length admits at most twice the limit.
  lemma AllowedPerStretch(m: Memory, reqs: seq<Req>, window: int, ident: string, limit: int, from: real)
    requires window > 0 && Traffic(reqs, window) && Untouched(m) && OneLimit(reqs, ident, limit)
    ensures Allowed(m, reqs, window, ident, Within(from, window)) <= 2 * Positive(limit)
  {
    var b := Bucket(from, window);
    forall t | Within(from, window)(t)
      ensures BucketIs(b, window)(t) || BucketIs(b + 1, window)(t)
    {
      TwoBuckets(from, t, window);
    }
    AllowedSplits(m, reqs, window, ident, Within(from, window), BucketIs(b, window), BucketIs(b + 1, window));
    AllowedPerBucket(m, reqs, window, ident, limit, b);
    AllowedPerBucket(m, reqs, window, ident, limit, b + 1);
  }

  // ---------- Which stretches keep the limit ----------

  // A stretch of one window's length that starts where a bucket does.
  predicate Aligned(from: real, window: int)
    requires window > 0
  {
    from == (Bucket(from, window) * window) as real
  }

  // A window's limit of calls at a moment, and as many where the next bucket begins.
  function Burst(ident: string, limit: nat, window: int, from: real): seq<Req>
    requires window > 0
  {
    seq(2 * limit, i => BurstCall(ident, limit, window, from, i))
  }

  function BurstCall(ident: string, limit: nat, window: int, from: real, i: int): Req
    requires window > 0
  {
    var t := if i < limit then from else ((Bucket(from, window) + 1) * window) as real;
    Hit(ident, limit, Clock(t, t, t))
  }

  lemma BurstBuckets(ident: string, limit: nat, window: int, from: real, i: int)
    requires window > 0 && from >= 0.0
    ensures var b := Bucket(from, window);
            && InBucket(BurstCall(ident, limit, window, from, i), ident, if i < limit then b else b + 1, window)
            && BurstCall(ident, limit, window, from, i).clock.entry >= 0.0
  {
    var b := Bucket(from, window);
    BucketBounds(from, window);
    QuotientIs((b + 1) * window, window, b + 1);
  }

  lemma {:induction false} BurstCount(ident: string, limit: nat, window: int, from: real, n: nat)
    requires window > 0 && from >= 0.0 && n <= 2 * limit
    ensures var b := Bucket(from, window);
            && Count(Burst(ident, limit, window, from)[..n], ident, b, window) == Min(n, limit)
            && Count(Burst(ident, limit, window, from)[..n], ident, b + 1, window) == n - Min(n, limit)
    decreases n
  {
    if n == 0 {
    } else {
      var reqs := Burst(ident, limit, window, from);
      assert reqs[..n][..n - 1] == reqs[..n - 1];
      BurstBuckets(ident, limit, window, from, n - 1);
      BurstCount(ident, limit, window, from, n - 1);
    }
  }

  lemma {:induction false} AllowedSums(m: Memory, reqs: seq<Req>, window: int, ident: string,
                                       p: real -> bool, q: real -> bool, r: real -> bool)
    requires window > 0 && Traffic(reqs, window)
    requires forall i :: 0 <= i < |reqs| && reqs[i].Hit? ==>
      var t := reqs[i].clock.entry; p(t) && (q(t) <==> !r(t))
    ensures Allowed(m, reqs, window, ident, p)
         == Allowed(m, reqs, window, ident, q) + Allowed(m, reqs, window, ident, r)
  {
    hide VerdictAt, Plausible;
    if reqs == [] {
    } else {
      AllowedSums(m, reqs[..|reqs| - 1], window, ident, p, q, r);
    }
  }

  // From every start that is not a bucket's own, some traffic gets twice the limit through in one window's length.
  lemma BoundIsReached(ident: string, limit: nat, window: int, from: real)
    requires window > 0 && from >= 0.0 && !Aligned(from, window)
    ensures var reqs := Burst(ident, limit, window, from);
            && Traffic(reqs, window) && OneLimit(reqs, ident, limit)
            && Allowed(map[], reqs, window, ident, Within(from, window)) == 2 * limit
  {
    hide Count, InBucket;
    var reqs := Burst(ident, limit, window, from);
    var b := Bucket(from, window);
    BucketBounds(from, window);
    assert (b + 1) * window == b * window + window;
    forall i | 0 <= i < |reqs|
      ensures Plausible(reqs[i], window)
      ensures var t := reqs[i].clock.entry;
              Within(from, window)(t) && (BucketIs(b, window)(t) <==> !BucketIs(b + 1, window)(t))
    {
      BurstBuckets(ident, limit, window, from, i);
      assert reqs[i] == BurstCall(ident, limit, window, from, i);
      InBucketTime(reqs[i], ident, if i < limit then b else b + 1, window);
    }
    assert reqs[..2 * limit] == reqs;
    BurstCount(ident, limit, window, from, 2 * limit);
    AllowedPerBucket(map[], reqs, window, ident, limit, b);
    AllowedPerBucket(map[], reqs, window, ident, limit, b + 1);
    AllowedSums(map[], reqs, window, ident, Within(from, window), BucketIs(b, window), BucketIs(b + 1, window));
  }

  lemma InBucketTime(r: Req, ident: string, bucket: int, window: int)
    requires window > 0 && InBucket(r, ident, bucket, window)
    ensures Bucket(r.clock.entry, window) == bucket
  {
  }

  // A stretch that is a bucket admits at most the limit.
  lemma AlignedKeepsLimit(m: Memory, reqs: seq<Req>, window: int, ident: string, limit: int, from: real)
    requires window > 0 && Traffic(reqs, window) && Untouched(m) && OneLimit(reqs, ident, limit)
    requires from >= 0.0 && Aligned(from, window)
    ensures Allowed(m, reqs, window, ident, Within(from, window)) <= Positive(limit)
  {
    var b := Bucket(from, window);
    forall t | Within(from, window)(t)
      ensures BucketIs(b, window)(t)
    {
      assert from.Floor == b * window;
      QuotientIs(t.Floor, window, b);
    }
    AllowedSplits(m, reqs, window, ident, Within(from, window), BucketIs(b, window), (_: real) => false);
    NoneAllowed(m, reqs, window, ident);
    AllowedPerBucket(m, reqs, window, ident, limit, b);
  }

  lemma {:induction false} NoneAllowed(m: Memory, reqs: seq<Req>, window: int, ident: string)
    requires window > 0 && Traffic(reqs, window)
    ensures Allowed(m, reqs, window, ident, (_: real) => false) == 0
  {
    if reqs == [] {
    } else {
      NoneAllowed(m, reqs[..|reqs| - 1], window, ident);
    }
  }

  // Every traffic stays within the limit in the window's length that starts at from.
  ghost predicate KeepsLimit(ident: string, limit: int, window: int, from: real)
    requires window > 0
  {
    forall m, reqs :: Traffic(reqs, window) && Untouched(m) && OneLimit(reqs, ident, limit) ==>
      Allowed(m, reqs, window, ident, Within(from, window)) <= limit
  }

  // The limiter is described as a sliding window, which would keep the limit from every start. It keeps it
  // exactly from the starts of its buckets.
  lemma SlidesExactlyWhenAligned(ident: string, limit: int, window: int, from: real)
    requires window > 0 && limit >= 1 && from >= 0.0
    ensures KeepsLimit(ident, limit, window, from) <==> Aligned(from, window)
  {
    if Aligned(from, window) {
      forall m, reqs | Traffic(reqs, window) && Untouched(m) && OneLimit(reqs, ident, limit)
        ensures Allowed(m, reqs, window, ident, Within(from, window)) <= limit
      {
        AlignedKeepsLimit(m, reqs, window, ident, limit, from);
      }
    } else {
      BoundIsReached(ident, limit, window, from);
      var m: Memory := map[];
      assert Untouched(m);
      assert Allowed(m, Burst(ident, limit, window, from), window, ident, Within(from, window)) > limit;
    }
  }
}
