// The in-memory fallback of the Redis manager: a dictionary of values with expiry times, evicted lazily,
// and the rate limiter that counts in it. Clock readings are arguments; with no Redis connection nothing
// suspends, so a call is one atomic step.
module TimedCache {
  import opened Basics
  import opened Decimals

  // An expiry time of 0 means none.
  datatype Entry = Entry(value: string, expiresAt: real)

  type Memory = map<string, Entry>

  predicate Live(e: Entry, now: real) {
    e.expiresAt == 0.0 || e.expiresAt > now
  }

  // Neither an absent nor a zero lifetime sets an expiry.
  predicate Expires(ex: Option<int>) {
    ex.Some? && ex.value != 0
  }

  function MakeEntry(value: string, ex: Option<int>, now: real): Entry {
    Entry(value, if Expires(ex) then now + ex.value as real else 0.0)
  }

  function Read(m: Memory, key: string, now: real): Option<string> {
    if key in m && Live(m[key], now) then Some(m[key].value) else None
  }

  function AfterGet(m: Memory, key: string, now: real): Memory {
    if key in m && !Live(m[key], now) then m - {key} else m
  }

  function AfterSet(m: Memory, key: string, value: string, ex: Option<int>, now: real): Memory {
    m[key := MakeEntry(value, ex, now)]
  }

  // ---------- The rate limiter ----------

  const RATE_LIMIT_PREFIX := "phonepe:ratelimit"

  function Bucket(t: real, window: int): int
    requires window > 0
  {
    t.Floor / window
  }

  function LimiterKey(ident: string, bucket: nat): string {
    RATE_LIMIT_PREFIX + ":" + ident + ":" + Decimal(bucket)
  }

  datatype Verdict = Verdict(allowed: bool, remaining: int, reset: int) | NotANumber

  // The clock as one call of the limiter reads it: on entry, in get, and in set.
  datatype Clock = Clock(entry: real, get: real, set_: real)

  function CountIn(val: Option<string>): Option<nat> {
    if !Truthy(val) then Some(1)
    else if Numeral(val.value) then Some(Parse(val.value) + 1)
    else None
  }

  function AfterHit(m: Memory, ident: string, window: int, c: Clock): Memory
    requires window > 0 && c.entry >= 0.0
  {
    var key := LimiterKey(ident, Bucket(c.entry, window));
    var m1 := AfterGet(m, key, c.get);
    match CountIn(Read(m, key, c.get))
    case None => m1
    case Some(count) => AfterSet(m1, key, Decimal(count), Some(window * 2), c.set_)
  }

  function HitVerdict(m: Memory, ident: string, limit: int, window: int, c: Clock): Verdict
    requires window > 0 && c.entry >= 0.0
  {
    var key := LimiterKey(ident, Bucket(c.entry, window));
    match CountIn(Read(m, key, c.get))
    case None => NotANumber
    case Some(count) =>
      Verdict(count <= limit, if limit - count > 0 then limit - count else 0, window - c.entry.Floor % window)
  }

  class RedisManager {
    var memory: Memory

    constructor ()
      ensures memory == map[]
    {
      memory := map[];
    }

    method Get(key: string, now: real) returns (r: Option<string>)
      modifies this
      ensures r == Read(old(memory), key, now)
      ensures memory == AfterGet(old(memory), key, now)
    {
      if key in memory {
        var e := memory[key];
        if e.expiresAt == 0.0 || e.expiresAt > now {
          return Some(e.value);
        } else {
          memory := memory - {key};
        }
      }
      return None;
    }

    method Set(key: string, value: string, ex: Option<int>, now: real)
      modifies this
      ensures memory == AfterSet(old(memory), key, value, ex, now)
    {
      var expiresAt := 0.0;
      if ex.Some? && ex.value != 0 {
        expiresAt := now + ex.value as real;
      }
      memory := memory[key := Entry(value, expiresAt)];
    }

    method Delete(key: string)
      modifies this
      ensures memory == old(memory) - {key}
    {
      memory := memory - {key};
    }

    method CheckRateLimit(ident: string, limit: int, window: int, c: Clock) returns (r: Verdict)
      requires window > 0 && c.entry >= 0.0
      modifies this
      ensures memory == AfterHit(old(memory), ident, window, c)
      ensures r == HitVerdict(old(memory), ident, limit, window, c)
    {
      var now := c.entry.Floor;
      var bucket := now / window;
      var key := LimiterKey(ident, bucket);
      var val := Get(key, c.get);
      var count := 1;
      if val.Some? && val.value != "" {
        if !Numeral(val.value) {
          return NotANumber;
        }
        count := Parse(val.value) + 1;
      }
      Set(key, Decimal(count), Some(window * 2), c.set_);
      var remaining := if limit - count > 0 then limit - count else 0;
      var reset := window - now % window;
      r := Verdict(count <= limit, remaining, reset);
    }
  }

  // ---------- The reference: an ideal timed map that never evicts ----------

  datatype Deadline = Never | At(time: real)

  datatype Timed = Timed(value: string, deadline: Deadline)

  type Ideal = map<string, Timed>

  predicate Before(now: real, d: Deadline) {
    d.Never? || now < d.time
  }

  function MakeDeadline(ex: Option<int>, now: real): Deadline {
    if ex.None? || ex.value == 0 then Never else At(now + ex.value as real)
  }

  datatype Op = Get(key: string, at: real)
              | Set(key: string, value: string, ex: Option<int>, at: real)
              | Delete(key: string, at: real)

  function Step(m: Memory, op: Op): Memory {
    match op
    case Get(key, at) => AfterGet(m, key, at)
    case Set(key, value, ex, at) => AfterSet(m, key, value, ex, at)
    case Delete(key, _) => m - {key}
  }

  function IdealStep(i: Ideal, op: Op): Ideal {
    match op
    case Get(_, _) => i
    case Set(key, value, ex, at) => i[key := Timed(value, MakeDeadline(ex, at))]
    case Delete(key, _) => i - {key}
  }

  // The store after a sequence of operations, and the ideal map after it.
  function After(ops: seq<Op>): Memory {
    if ops == [] then map[] else Step(After(ops[..|ops| - 1]), ops[|ops| - 1])
  }

  function IdealAfter(ops: seq<Op>): Ideal {
    if ops == [] then map[] else IdealStep(IdealAfter(ops[..|ops| - 1]), ops[|ops| - 1])
  }

  // What operation n answers; only a get has an answer.
  function Answer(ops: seq<Op>, n: nat): Option<string>
    requires n < |ops|
  {
    if ops[n].Get? then Read(After(ops[..n]), ops[n].key, ops[n].at) else None
  }

  function IdealAnswer(ops: seq<Op>, n: nat): Option<string>
    requires n < |ops|
  {
    var i := IdealAfter(ops[..n]);
    if ops[n].Get? && ops[n].key in i && Before(ops[n].at, i[ops[n].key].deadline) then Some(i[ops[n].key].value)
    else None
  }

  ghost predicate AnswersIdeally(ops: seq<Op>) {
    forall n :: 0 <= n < |ops| ==> Answer(ops, n) == IdealAnswer(ops, n)
  }

  // An expiry that lands on time 0 would be taken for none.
  predicate LandsOnZero(ex: Option<int>, now: real) {
    Expires(ex) && now + ex.value as real == 0.0
  }

  // The lazy entry lives exactly as long as it should unless its expiry lands on time 0.
  lemma ExpiryExact(value: string, ex: Option<int>, now: real)
    ensures (forall t: real :: Live(MakeEntry(value, ex, now), t) <==> Before(t, MakeDeadline(ex, now)))
            <==> !LandsOnZero(ex, now)
  {
    if LandsOnZero(ex, now) {
      assert Live(MakeEntry(value, ex, now), 1.0) && !Before(1.0, MakeDeadline(ex, now));
    }
  }

  predicate NoZeroExpiry(ops: seq<Op>) {
    forall k :: 0 <= k < |ops| && ops[k].Set? ==> !LandsOnZero(ops[k].ex, ops[k].at)
  }

  predicate Matches(e: Entry, t: Timed) {
    && e.value == t.value
    && (e.expiresAt == 0.0 <==> t.deadline.Never?)
    && (t.deadline.At? ==> e.expiresAt == t.deadline.time)
  }

  // The last set or delete of a key among the first n operations, or -1.
  function LastWrite(ops: seq<Op>, n: nat, key: string): (i: int)
    requires n <= |ops|
    ensures -1 <= i < n
  {
    if n == 0 then -1
    else if !ops[n - 1].Get? && ops[n - 1].key == key then n - 1
    else LastWrite(ops, n - 1, key)
  }

  // A get of the key between operations i and n read a time at or past the deadline.
  predicate SeenLate(ops: seq<Op>, key: string, deadline: Deadline, i: int, n: nat)
    requires -1 <= i <= n <= |ops|
  {
    exists j :: i < j < n && ops[j].Get? && ops[j].key == key && !Before(ops[j].at, deadline)
  }

  // Get n reads a time before the deadline of the key's last set, but a get in between had read one past it.
  predicate Regret(ops: seq<Op>, n: nat)
    requires n < |ops|
  {
    ops[n].Get? &&
    var i := LastWrite(ops, n, ops[n].key);
    i >= 0 && ops[i].Set? &&
    var deadline := MakeDeadline(ops[i].ex, ops[i].at);
    Before(ops[n].at, deadline) && SeenLate(ops, ops[n].key, deadline, i, n)
  }

  // The dictionary lacks a key that the ideal map holds exactly when it has been seen late since its last set.
  ghost predicate KeyOk(ops: seq<Op>, n: nat, key: string)
    requires n <= |ops|
  {
    var m, ideal, i := After(ops[..n]), IdealAfter(ops[..n]), LastWrite(ops, n, key);
    if i < 0 || !ops[i].Set? then key !in m && key !in ideal
    else
      var deadline := MakeDeadline(ops[i].ex, ops[i].at);
      && key in ideal && ideal[key] == Timed(ops[i].value, deadline)
      && (key in m <==> !SeenLate(ops, key, deadline, i, n))
      && (key in m ==> Matches(m[key], ideal[key]))
  }

  lemma SeenLateStep(ops: seq<Op>, key: string, deadline: Deadline, i: int, n: nat)
    requires 0 <= i < n <= |ops|
    ensures SeenLate(ops, key, deadline, i, n) <==>
            SeenLate(ops, key, deadline, i, n - 1)
            || (i < n - 1 && ops[n - 1].Get? && ops[n - 1].key == key && !Before(ops[n - 1].at, deadline))
  {
  }

  lemma {:induction false} KeyFollows(ops: seq<Op>, n: nat, key: string)
    requires n <= |ops| && NoZeroExpiry(ops)
    ensures KeyOk(ops, n, key)
    decreases n
  {
    if n == 0 {
    } else {
      KeyFollows(ops, n - 1, key);
      assert ops[..n][..n - 1] == ops[..n - 1];
      var i := LastWrite(ops, n, key);
      if i >= 0 && ops[i].Set? {
        SeenLateStep(ops, key, MakeDeadline(ops[i].ex, ops[i].at), i, n);
      }
    }
  }

  // For every sequence of operations on any clock, the lazily evicting cache answers as the ideal timed map
  // does if and only if no get reads a time before a deadline that an earlier get has read past.
  lemma IdealExactlyWithoutRegret(ops: seq<Op>)
    requires NoZeroExpiry(ops)
    ensures AnswersIdeally(ops) <==> forall n :: 0 <= n < |ops| ==> !Regret(ops, n)
  {
    forall n | 0 <= n < |ops|
      ensures Answer(ops, n) == IdealAnswer(ops, n) <==> !Regret(ops, n)
    {
      KeyFollows(ops, n, ops[n].key);
    }
  }

  predicate Ordered(ops: seq<Op>) {
    forall j, k :: 0 <= j < k < |ops| ==> ops[j].at <= ops[k].at
  }

  // On a clock that does not run back the cache always answers as the ideal timed map.
  lemma CacheIsTimedMap(ops: seq<Op>)
    requires Ordered(ops) && NoZeroExpiry(ops)
    ensures AnswersIdeally(ops)
  {
    IdealExactlyWithoutRegret(ops);
  }

  // How far the clock may run back after a single set: the second of two gets misses a value the ideal map
  // still holds exactly when the expiry lies after its reading and not after the first one's.
  lemma ClockMustNotRunBack(key: string, value: string, ex: Option<int>, t0: real, t1: real, t2: real)
    requires Expires(ex) && !LandsOnZero(ex, t0)
    ensures AnswersIdeally([Set(key, value, ex, t0), Get(key, t1), Get(key, t2)])
            <==> !(t2 < t0 + ex.value as real <= t1)
  {
    var ops := [Set(key, value, ex, t0), Get(key, t1), Get(key, t2)];
    IdealExactlyWithoutRegret(ops);
    var deadline := MakeDeadline(ex, t0);
    assert LastWrite(ops, 1, key) == 0 == LastWrite(ops, 2, key);
    assert !SeenLate(ops, key, deadline, 0, 1);
    assert SeenLate(ops, key, deadline, 0, 2) <==> !Before(ops[1].at, deadline);
    assert !Regret(ops, 0) && !Regret(ops, 1);
    assert Regret(ops, 2) <==> t2 < t0 + ex.value as real <= t1;
  }
}
