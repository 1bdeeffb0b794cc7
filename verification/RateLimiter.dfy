/** The per-key fixed-window rate limiter (internal/ratelimit/ratelimit.go). The clock is a parameter and, like
    Go's monotonic clock, never runs backwards. The specification is a limiter with one bucket per key that
    never deletes anything. */
module RateLimiter {
  import opened Options

  datatype Bucket = Bucket(count: int, windowEnd: int)

  datatype Config = Config(limit: int, window: int)

  datatype Limits = Limits(entries: map<string, Bucket>, lastSweep: int)

  const EMPTY := Limits(map[], 0)

  // --- The specification: one key, nothing evicted ---

  function AfterCall(c: Config, b: Option<Bucket>, now: int): Option<Bucket> {
    if b.None? || now > b.value.windowEnd then Some(Bucket(1, now + c.window))
    else if b.value.count >= c.limit then b
    else Some(b.value.(count := b.value.count + 1))
  }

  predicate Allowed(c: Config, b: Option<Bucket>, now: int) {
    b.None? || now > b.value.windowEnd || b.value.count < c.limit
  }

  /** The answers to calls for one key at the given times. */
  function KeyRun(c: Config, b: Option<Bucket>, times: seq<int>): (answers: seq<bool>)
    ensures |answers| == |times|
    decreases |times|
  {
    if times == [] then [] else
    [Allowed(c, b, times[0])] + KeyRun(c, AfterCall(c, b, times[0]), times[1..])
  }

  // --- The limiter itself ---

  function Fresh(entries: map<string, Bucket>, now: int): map<string, Bucket> {
    map k | k in entries && now <= entries[k].windowEnd :: entries[k]
  }

  function Lookup(entries: map<string, Bucket>, key: string): Option<Bucket> {
    if key in entries then Some(entries[key]) else None
  }

  function AfterAllow(c: Config, s: Limits, key: string, now: int): Limits {
    var sweep := now > s.lastSweep + c.window;
    var entries := if sweep then Fresh(s.entries, now) else s.entries;
    Limits(entries[key := AfterCall(c, Lookup(entries, key), now).value], if sweep then now else s.lastSweep)
  }

  predicate Answer(c: Config, s: Limits, key: string, now: int) {
    var entries := if now > s.lastSweep + c.window then Fresh(s.entries, now) else s.entries;
    Allowed(c, Lookup(entries, key), now)
  }

  class Limiter {
    const config: Config
    var entries: map<string, Bucket>
    var lastSweep: int

    function View(): Limits
      reads this
    {
      Limits(entries, lastSweep)
    }

    constructor (limit: int, window: int)
      ensures config == Config(limit, window) && View() == EMPTY
    {
      config := Config(limit, window);
      entries, lastSweep := map[], 0;
    }

    method DeleteStale(now: int)
      modifies this`entries
      ensures entries == Fresh(old(entries), now)
    {
      var todo := entries.Keys;
      while todo != {}
        invariant todo <= entries.Keys <= old(entries).Keys
        invariant forall k :: k in entries ==> entries[k] == old(entries)[k]
        invariant forall k :: k in old(entries) && k !in todo ==> (k in entries <==> now <= old(entries)[k].windowEnd)
        decreases todo
      {
        var k :| k in todo;
        if now > entries[k].windowEnd {
          entries := entries - {k};
        }
        todo := todo - {k};
      }
    }

    method Allow(key: string, now: int) returns (ok: bool)
      modifies this
      ensures View() == AfterAllow(config, old(View()), key, now)
      ensures ok == Answer(config, old(View()), key, now)
    {
      if now > lastSweep + config.window {
        DeleteStale(now);
        lastSweep := now;
      }
      if key !in entries || now > entries[key].windowEnd {
        entries := entries[key := Bucket(1, now + config.window)];
        return true;
      }
      var b := entries[key];
      if b.count >= config.limit {
        assert entries[key := b] == entries;
        return false;
      }
      entries := entries[key := b.(count := b.count + 1)];
      return true;
    }

    method Evict(now: int)
      modifies this
      ensures View() == old(View()).(entries := Fresh(old(entries), now))
      ensures forall k :: k in entries <==> k in old(entries) && now <= old(entries)[k].windowEnd
      ensures forall k :: k in entries ==> entries[k] == old(entries)[k]
    {
      DeleteStale(now);
    }
  }

  // --- Whole traces ---

  datatype Op = Allow(key: string, now: int) | Evict(now: int)

  predicate ClockFrom(start: int, ops: seq<Op>)
    decreases |ops|
  {
    ops == [] || (start <= ops[0].now && ClockFrom(ops[0].now, ops[1..]))
  }

  function Perform(c: Config, s: Limits, op: Op): Limits {
    match op
    case Allow(key, now) => AfterAllow(c, s, key, now)
    case Evict(now) => s.(entries := Fresh(s.entries, now))
  }

  function PerformAll(c: Config, s: Limits, ops: seq<Op>): Limits
    decreases |ops|
  {
    if ops == [] then s else PerformAll(c, Perform(c, s, ops[0]), ops[1..])
  }

  /** The answers a trace gives to the calls for key. */
  function AnswersFor(c: Config, s: Limits, ops: seq<Op>, key: string): seq<bool>
    decreases |ops|
  {
    if ops == [] then [] else
    var rest := AnswersFor(c, Perform(c, s, ops[0]), ops[1..], key);
    if ops[0].Allow? && ops[0].key == key then [Answer(c, s, key, ops[0].now)] + rest else rest
  }

  /** When key is called. */
  function CallsOf(ops: seq<Op>, key: string): seq<int>
    decreases |ops|
  {
    if ops == [] then []
    else if ops[0].Allow? && ops[0].key == key then [ops[0].now] + CallsOf(ops[1..], key)
    else CallsOf(ops[1..], key)
  }

  /** The limiter holds the key's bucket, or none while the bucket is missing or stale from now on. */
  predicate Tracks(entries: map<string, Bucket>, key: string, b: Option<Bucket>, now: int) {
    Lookup(entries, key) == b || (key !in entries && b.Some? && now > b.value.windowEnd)
  }

  lemma TracksAfter(c: Config, s: Limits, op: Op, key: string, b: Option<Bucket>, before: int)
    requires Tracks(s.entries, key, b, before) && before <= op.now
    ensures op.Allow? && op.key == key ==>
              Answer(c, s, key, op.now) == Allowed(c, b, op.now)
              && Tracks(Perform(c, s, op).entries, key, AfterCall(c, b, op.now), op.now)
    ensures !(op.Allow? && op.key == key) ==> Tracks(Perform(c, s, op).entries, key, b, op.now)
  {
  }

  /** On every trace, sweeps and evictions included, the answers for a key are those of a limiter that serves
      only this key and never deletes its bucket: eviction cannot be observed and keys do not interfere. */
  lemma {:induction false} EvictionIsInvisible(c: Config, s: Limits, ops: seq<Op>, key: string, b: Option<Bucket>,
                                               start: int)
    requires Tracks(s.entries, key, b, start) && ClockFrom(start, ops)
    ensures AnswersFor(c, s, ops, key) == KeyRun(c, b, CallsOf(ops, key))
    decreases |ops|
  {
    if ops != [] {
      TracksAfter(c, s, ops[0], key, b, start);
      var b' := if ops[0].Allow? && ops[0].key == key then AfterCall(c, b, ops[0].now) else b;
      EvictionIsInvisible(c, Perform(c, s, ops[0]), ops[1..], key, b', ops[0].now);
    }
  }

  /** Two traces with the same calls for a key answer them alike, whatever else they do. */
  lemma KeysDoNotInterfere(c: Config, ops: seq<Op>, others: seq<Op>, key: string, start: int)
    requires ClockFrom(start, ops) && ClockFrom(start, others) && CallsOf(ops, key) == CallsOf(others, key)
    ensures AnswersFor(c, EMPTY, ops, key) == AnswersFor(c, EMPTY, others, key)
  {
    EvictionIsInvisible(c, EMPTY, ops, key, None, start);
    EvictionIsInvisible(c, EMPTY, others, key, None, start);
  }

  /** A call sweeps exactly if more than a window has passed since the last sweep, and then clears exactly the windows
      that have ended; otherwise it touches no other key. */
  lemma SweepsOncePerWindow(c: Config, s: Limits, key: string, now: int, k: string)
    requires k != key
    ensures var s' := Perform(c, s, Allow(key, now));
            var sweeps := now - s.lastSweep > c.window;
            && s'.lastSweep == (if sweeps then now else s.lastSweep)
            && (k in s'.entries <==> k in s.entries && (sweeps ==> now <= s.entries[k].windowEnd))
            && (k in s'.entries ==> s'.entries[k] == s.entries[k])
  {
  }

  // --- The sweep bounds what is kept ---

  ghost predicate Swept(s: Limits) {
    forall k :: k in s.entries ==> s.lastSweep <= s.entries[k].windowEnd
  }

  lemma {:induction false} SweptRun(c: Config, s: Limits, ops: seq<Op>, start: int)
    requires c.window >= 0 && Swept(s) && s.lastSweep <= start && ClockFrom(start, ops)
    ensures var end := PerformAll(c, s, ops);
            Swept(end) && (ops != [] ==> end.lastSweep <= ops[|ops| - 1].now)
    decreases |ops|
  {
    if ops != [] {
      SweptRun(c, Perform(c, s, ops[0]), ops[1..], ops[0].now);
    }
  }

  lemma {:induction false} PerformLast(c: Config, s: Limits, ops: seq<Op>, op: Op)
    ensures PerformAll(c, s, ops + [op]) == Perform(c, PerformAll(c, s, ops), op)
    decreases |ops|
  {
    if ops == [] {
      assert ops + [op] == [op] && [op][1..] == [];
    } else {
      assert (ops + [op])[1..] == ops[1..] + [op];
      PerformLast(c, Perform(c, s, ops[0]), ops[1..], op);
    }
  }

  lemma {:induction false} ClockOfPrefix(start: int, ops: seq<Op>, op: Op)
    requires ClockFrom(start, ops + [op])
    ensures ClockFrom(start, ops) && op.now >= (if ops == [] then start else ops[|ops| - 1].now)
    decreases |ops|
  {
    if ops != [] {
      assert (ops + [op])[1..] == ops[1..] + [op];
      ClockOfPrefix(ops[0].now, ops[1..], op);
    }
  }

  /** After every Allow, no entry whose window ended more than one window ago is left. */
  lemma NothingOldIsKept(c: Config, ops: seq<Op>, key: string, now: int)
    requires c.window >= 0 && ClockFrom(0, ops + [Allow(key, now)])
    ensures var end := PerformAll(c, EMPTY, ops + [Allow(key, now)]);
            forall k :: k in end.entries ==> now - c.window <= end.entries[k].windowEnd
  {
    ClockOfPrefix(0, ops, Allow(key, now));
    SweptRun(c, EMPTY, ops, 0);
    PerformLast(c, EMPTY, ops, Allow(key, now));
  }

  // --- How many calls a sliding window can contain ---

  predicate Ascending(times: seq<int>) {
    forall i, j :: 0 <= i < j < |times| ==> times[i] <= times[j]
  }

  /** How many calls are allowed in the closed interval from lo to lo + window. */
  function AllowedWithin(c: Config, b: Option<Bucket>, times: seq<int>, lo: int): nat
    decreases |times|
  {
    if times == [] then 0 else
    (if Allowed(c, b, times[0]) && lo <= times[0] <= lo + c.window then 1 else 0)
    + AllowedWithin(c, AfterCall(c, b, times[0]), times[1..], lo)
  }

  /** The first call of a window is allowed whatever the limit. */
  function Quota(c: Config): (n: nat)
    ensures n >= 1
  {
    if c.limit < 1 then 1 else c.limit
  }

  ghost predicate InQuota(c: Config, b: Option<Bucket>) {
    b.Some? ==> 1 <= b.value.count <= Quota(c)
  }

  /** Once the interval has begun: what is left of the current bucket, and one more bucket if the current one
      began before the interval. */
  lemma {:induction false} WithinInterval(c: Config, b: Option<Bucket>, times: seq<int>, lo: int)
    requires InQuota(c, b) && Ascending(times) && (forall t :: t in times ==> lo <= t)
    ensures AllowedWithin(c, b, times, lo)
            <= match b
               case None => Quota(c)
               case Some(k) => Quota(c) - k.count + if k.windowEnd < lo + c.window then Quota(c) else 0
    decreases |times|
  {
    if times != [] {
      assert times[0] in times && forall t :: t in times[1..] ==> t in times;
      WithinInterval(c, AfterCall(c, b, times[0]), times[1..], lo);
      if b.Some? && times[0] > b.value.windowEnd && b.value.windowEnd >= lo + c.window {
        AfterInterval(c, AfterCall(c, b, times[0]), times[1..], lo);
      }
      if b.None? && times[0] > lo + c.window {
        AfterInterval(c, AfterCall(c, b, times[0]), times[1..], lo);
      }
    }
  }

  lemma {:induction false} AfterInterval(c: Config, b: Option<Bucket>, times: seq<int>, lo: int)
    requires forall t :: t in times ==> lo + c.window < t
    ensures AllowedWithin(c, b, times, lo) == 0
    decreases |times|
  {
    if times != [] {
      assert times[0] in times && forall t :: t in times[1..] ==> t in times;
      AfterInterval(c, AfterCall(c, b, times[0]), times[1..], lo);
    }
  }

  /** Any closed interval as long as the window contains at most twice the limit, less one, allowed calls for a
      key: a bucket that began before the interval has already spent its first call. */
  lemma {:induction false} SlidingWindowBound(c: Config, b: Option<Bucket>, times: seq<int>, lo: int)
    requires InQuota(c, b) && Ascending(times)
    requires b.Some? ==> b.value.windowEnd < lo + c.window
    ensures AllowedWithin(c, b, times, lo) <= 2 * Quota(c) - 1
    decreases |times|
  {
    if times != [] {
      if times[0] < lo {
        SlidingWindowBound(c, AfterCall(c, b, times[0]), times[1..], lo);
      } else {
        assert forall t :: t in times ==> lo <= t;
        WithinInterval(c, b, times, lo);
      }
    }
  }

  /** How many of the calls were allowed between lo and hi. */
  function Granted(answers: seq<bool>, times: seq<int>, lo: int, hi: int): nat
    requires |answers| == |times|
  {
    if times == [] then 0 else
    (if answers[0] && lo <= times[0] <= hi then 1 else 0) + Granted(answers[1..], times[1..], lo, hi)
  }

  lemma {:induction false} GrantedInRun(c: Config, b: Option<Bucket>, times: seq<int>, lo: int)
    ensures Granted(KeyRun(c, b, times), times, lo, lo + c.window) == AllowedWithin(c, b, times, lo)
    decreases |times|
  {
    if times != [] {
      GrantedInRun(c, AfterCall(c, b, times[0]), times[1..], lo);
    }
  }

  lemma {:induction false} CallsAscend(ops: seq<Op>, key: string, start: int)
    requires ClockFrom(start, ops)
    ensures Ascending(CallsOf(ops, key)) && forall t :: t in CallsOf(ops, key) ==> start <= t
    decreases |ops|
  {
    if ops != [] {
      CallsAscend(ops[1..], key, ops[0].now);
      var rest := CallsOf(ops[1..], key);
      forall i, j | 0 <= i < j < |[ops[0].now] + rest| ensures ([ops[0].now] + rest)[i] <= ([ops[0].now] + rest)[j] {
        assert rest[j - 1] in rest;
      }
    }
  }

  // --- How many calls it takes to be refused ---

  /** The bucket is the one the calls at these times will meet. */
  ghost predicate Current(c: Config, b: Option<Bucket>, times: seq<int>) {
    b.Some? ==> 1 <= b.value.count && forall t :: t in times ==> b.value.windowEnd - c.window <= t
  }

  lemma {:induction false} RefusalIsEarned(c: Config, b: Option<Bucket>, times: seq<int>, i: nat)
    requires c.window >= 0 && Current(c, b, times) && Ascending(times) && i < |times| && !KeyRun(c, b, times)[i]
    ensures AllowedWithin(c, b, times, times[i] - c.window)
            >= Quota(c) - if b.Some? && times[i] <= b.value.windowEnd then b.value.count else 0
    decreases |times|
  {
    if i > 0 {
      var b' := AfterCall(c, b, times[0]);
      assert times[0] <= times[i] && times[i] in times;
      assert Current(c, b', times[1..]) by {
        forall t | t in times[1..] ensures b'.value.windowEnd - c.window <= t {
          assert t in times;
          var j :| 0 <= j < |times[1..]| && times[1..][j] == t;
          assert times[0] <= times[j + 1];
        }
      }
      assert KeyRun(c, b, times)[i] == KeyRun(c, b', times[1..])[i - 1];
      RefusalIsEarned(c, b', times[1..], i - 1);
      assert times[0] in times;
    }
  }

  /** A key is refused only after a full quota of allowed calls within the last window. So refused calls prolong
      nothing: a client that is refused and keeps trying is served again. */
  lemma RefusalNeedsAFullQuota(c: Config, times: seq<int>, i: nat)
    requires c.window >= 0 && Ascending(times) && i < |times| && !KeyRun(c, None, times)[i]
    ensures AllowedWithin(c, None, times, times[i] - c.window) >= Quota(c)
  {
    RefusalIsEarned(c, None, times, i);
  }

  /** The same for every trace of a new limiter: of the calls for a key in the window that ends at a refused one, a
      full quota was allowed. */
  lemma TraceRefusalNeedsAFullQuota(c: Config, ops: seq<Op>, key: string, start: int, i: nat)
    requires c.window >= 0 && ClockFrom(start, ops) && i < |CallsOf(ops, key)|
    ensures |AnswersFor(c, EMPTY, ops, key)| == |CallsOf(ops, key)|
    ensures !AnswersFor(c, EMPTY, ops, key)[i] ==>
              var calls := CallsOf(ops, key);
              Granted(AnswersFor(c, EMPTY, ops, key), calls, calls[i] - c.window, calls[i]) >= Quota(c)
  {
    EvictionIsInvisible(c, EMPTY, ops, key, None, start);
    CallsAscend(ops, key, start);
    var calls := CallsOf(ops, key);
    if !AnswersFor(c, EMPTY, ops, key)[i] {
      RefusalNeedsAFullQuota(c, calls, i);
      GrantedInRun(c, None, calls, calls[i] - c.window);
    }
  }

  /** On every trace of a new limiter, with any other keys and evictions mixed in, the calls allowed for a key in any
      closed interval as long as the window number at most twice the limit, less one. */
  lemma TraceIsBounded(c: Config, ops: seq<Op>, key: string, start: int, lo: int)
    requires ClockFrom(start, ops)
    ensures |AnswersFor(c, EMPTY, ops, key)| == |CallsOf(ops, key)|
    ensures Granted(AnswersFor(c, EMPTY, ops, key), CallsOf(ops, key), lo, lo + c.window) <= 2 * Quota(c) - 1
  {
    EvictionIsInvisible(c, EMPTY, ops, key, None, start);
    CallsAscend(ops, key, start);
    GrantedInRun(c, None, CallsOf(ops, key), lo);
    SlidingWindowBound(c, None, CallsOf(ops, key), lo);
  }

  function Repeat(t: int, n: nat): seq<int> {
    seq(n, _ => t)
  }

  lemma {:induction false} RepeatedCalls(c: Config, b: Bucket, t: int, n: nat, more: seq<int>, lo: int)
    requires t <= b.windowEnd && (n > 0 ==> b.count + n <= c.limit) && lo <= t <= lo + c.window
    ensures AllowedWithin(c, Some(b), Repeat(t, n) + more, lo)
            == n + AllowedWithin(c, Some(b.(count := b.count + n)), more, lo)
    decreases n
  {
    if n == 0 {
      assert Repeat(t, 0) + more == more;
    } else {
      assert (Repeat(t, n) + more)[1..] == Repeat(t, n - 1) + more;
      RepeatedCalls(c, b.(count := b.count + 1), t, n - 1, more, lo);
    }
  }

  /** Quota is exact, also for a limit below 1: of n calls at the start of a window the first Quota are allowed. */
  lemma QuotaIsExact(c: Config, t: int, n: nat)
    requires c.window >= 0 && n >= 1
    ensures AllowedWithin(c, None, Repeat(t, n), t) == if n <= Quota(c) then n else Quota(c)
  {
    assert Repeat(t, n)[1..] == Repeat(t, n - 1);
    var b := Bucket(1, t + c.window);
    if n <= Quota(c) {
      assert Repeat(t, n - 1) + [] == Repeat(t, n - 1);
      RepeatedCalls(c, b, t, n - 1, [], t);
    } else {
      assert Repeat(t, n - 1) == Repeat(t, Quota(c) - 1) + Repeat(t, n - Quota(c));
      RepeatedCalls(c, b, t, Quota(c) - 1, Repeat(t, n - Quota(c)), t);
      NoneBeyondQuota(c, b.(count := Quota(c)), t, n - Quota(c));
    }
  }

  lemma {:induction false} NoneBeyondQuota(c: Config, b: Bucket, t: int, n: nat)
    requires t <= b.windowEnd && b.count == Quota(c)
    ensures AllowedWithin(c, Some(b), Repeat(t, n), t) == 0
    decreases n
  {
    if n > 0 {
      assert Repeat(t, n)[1..] == Repeat(t, n - 1);
      NoneBeyondQuota(c, b, t, n - 1);
    }
  }

  /** A full bucket, and a full quota of calls just after it. */
  lemma QuotaAfterFullBucket(c: Config)
    requires c.window >= 1
    ensures AllowedWithin(c, Some(Bucket(Quota(c), c.window)), Repeat(c.window + 1, Quota(c)), 1) == Quota(c)
  {
    var t, quota := c.window + 1, Quota(c);
    assert Repeat(t, quota)[1..] == Repeat(t, quota - 1) + [];
    RepeatedCalls(c, Bucket(1, t + c.window), t, quota - 1, [], 1);
  }

  /** The bound is reached for every limit: one call, the rest of the quota as the window ends, and a full
      quota right after. */
  lemma SlidingWindowBoundIsTight(c: Config)
    requires c.window >= 1
    ensures var times := [0] + Repeat(c.window, Quota(c) - 1) + Repeat(c.window + 1, Quota(c));
            Ascending(times) && AllowedWithin(c, None, times, 1) == 2 * Quota(c) - 1
  {
    var w, quota := c.window, Quota(c);
    var rest := Repeat(w, quota - 1) + Repeat(w + 1, quota);
    assert [0] + Repeat(w, quota - 1) + Repeat(w + 1, quota) == [0] + rest;
    assert ([0] + rest)[1..] == rest;
    RepeatedCalls(c, Bucket(1, w), w, quota - 1, Repeat(w + 1, quota), 1);
    QuotaAfterFullBucket(c);
  }
}
