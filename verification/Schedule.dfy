/** Scheduled wake-ups (PowerLogic.kt in the Android app): parsing HH:MM entries, the next occurrence of any of
    them, and the jobs a wake plan implies. Days have 24 hours and time is in milliseconds from some midnight. */
module Schedule {
  import opened Options

  const MINUTE := 60_000
  const HOUR := 3_600_000
  const DAY := 86_400_000

  function Split(s: string, sep: char): (parts: seq<string>)
    ensures |parts| >= 1
  {
    if s == "" then [""] else
    var rest := Split(s[1..], sep);
    if s[0] == sep then [""] + rest else [[s[0]] + rest[0]] + rest[1..]
  }

  function Digits(s: string): Option<nat> {
    if s == "" then Some(0) else
    var last := s[|s| - 1];
    var front := Digits(s[..|s| - 1]);
    if front.Some? && '0' <= last <= '9' then Some(front.value * 10 + (last - '0') as int) else None
  }

  /** Kotlin's toIntOrNull for ASCII: an optional sign, at least one digit, and a value of 32 bits. */
  function ToIntOrNull(s: string): Option<int> {
    if s == "" then None
    else if s[0] == '-' || s[0] == '+' then
      if |s| == 1 then None else
      match Digits(s[1..])
      case None => None
      case Some(n) =>
        var v: int := if s[0] == '-' then 0 - n as int else n;
        if -0x8000_0000 <= v <= 0x7fff_ffff then Some(v) else None
    else
      match Digits(s)
      case None => None
      case Some(n) => if n <= 0x7fff_ffff then Some(n) else None
  }

  /** The time of day an entry names, in milliseconds; malformed entries name none. */
  function TimeOfDay(t: string): (r: Option<int>)
    ensures r.Some? ==> 0 <= r.value < DAY && r.value % MINUTE == 0
  {
    var parts := Split(t, ':');
    if |parts| != 2 then None else
    match (ToIntOrNull(parts[0]), ToIntOrNull(parts[1]))
    case (Some(h), Some(m)) => if 0 <= h <= 23 && 0 <= m <= 59 then Some(h * HOUR + m * MINUTE) else None
    case _ => None
  }

  function Digit(d: int): char
    requires 0 <= d < 10
  {
    '0' + d as char
  }

  /** hh:mm as the settings write it. */
  function Rendered(h: int, m: int): string
    requires 0 <= h < 100 && 0 <= m < 100
  {
    [Digit(h / 10), Digit(h % 10), ':', Digit(m / 10), Digit(m % 10)]
  }

  lemma TwoDigits(n: int)
    requires 0 <= n < 100
    ensures ToIntOrNull([Digit(n / 10), Digit(n % 10)]) == Some(n)
  {
    var s := [Digit(n / 10), Digit(n % 10)];
    assert s[..1] == [Digit(n / 10)] && s[..1][..0] == "";
    assert Digits("") == Some(0);
    assert Digits(s[..1]) == Some(n / 10);
    assert Digits(s) == Some(n / 10 * 10 + n % 10);
  }

  lemma {:induction false} SplitWhole(t: string, sep: char)
    requires sep !in t
    ensures Split(t, sep) == [t]
  {
    if t != "" {
      SplitWhole(t[1..], sep);
      assert [t[0]] + t[1..] == t;
    }
  }

  lemma {:induction false} SplitFirst(s: string, sep: char, t: string)
    requires sep !in s
    ensures Split(s + [sep] + t, sep) == [s] + Split(t, sep)
  {
    if s == "" {
      assert (s + [sep] + t)[1..] == t;
    } else {
      SplitFirst(s[1..], sep, t);
      assert (s + [sep] + t)[1..] == s[1..] + [sep] + t;
      assert [s[0]] + s[1..] == s;
    }
  }

  // --- Which entries are valid ---

  function Power10(n: nat): nat {
    if n == 0 then 1 else 10 * Power10(n - 1)
  }

  predicate AllDigits(s: string) {
    forall i :: 0 <= i < |s| ==> '0' <= s[i] <= '9'
  }

  /** The number a string of digits writes, place by place from the left. */
  function Numeral(s: string): nat
    requires AllDigits(s)
  {
    if s == "" then 0 else (s[0] - '0') as nat * Power10(|s| - 1) + Numeral(s[1..])
  }

  lemma {:induction false} NumeralSnoc(s: string, d: char)
    requires AllDigits(s) && '0' <= d <= '9'
    ensures AllDigits(s + [d]) && Numeral(s + [d]) == 10 * Numeral(s) + (d - '0') as nat
  {
    if s == "" {
      assert s + [d] == [d] && [d][1..] == "";
    } else {
      assert (s + [d])[1..] == s[1..] + [d];
      NumeralSnoc(s[1..], d);
      var first: nat := (s[0] - '0') as nat;
      assert Power10(|s|) == 10 * Power10(|s| - 1);
      TimesTen(first, Power10(|s| - 1));
    }
  }

  lemma TimesTen(a: nat, b: nat)
    ensures a * (10 * b) == 10 * (a * b)
  {
  }

  lemma {:induction false} DigitsIff(s: string)
    ensures Digits(s) == if AllDigits(s) then Some(Numeral(s)) else None
    decreases |s|
  {
    if s != "" {
      var front, last := s[..|s| - 1], s[|s| - 1];
      DigitsIff(front);
      assert s == front + [last];
      if AllDigits(s) {
        NumeralSnoc(front, last);
      } else if AllDigits(front) {
        assert !('0' <= last <= '9');
      }
    }
  }

  /** A part of an entry is a number if it is a sign or none and at least one digit, any number of them, and the number
      has 32 bits; everything else is not. */
  lemma ToIntOrNullIff(s: string)
    ensures var signed := s != "" && (s[0] == '-' || s[0] == '+');
            var digits := if signed then s[1..] else s;
            ToIntOrNull(s) ==
              if digits == "" || !AllDigits(digits) then None else
              var n: int := Numeral(digits);
              var v := if signed && s[0] == '-' then -n else n;
              if -0x8000_0000 <= v <= 0x7fff_ffff then Some(v) else None
  {
    DigitsIff(s);
    if s != "" {
      DigitsIff(s[1..]);
    }
  }

  /** An entry is valid exactly if it is two numbers around one colon, an hour and a minute of the day. */
  lemma TimeOfDayIff(hour: string, minute: string)
    requires ':' !in hour && ':' !in minute
    ensures var h, m := ToIntOrNull(hour), ToIntOrNull(minute);
            TimeOfDay(hour + ":" + minute) ==
              if h.Some? && m.Some? && 0 <= h.value < 24 && 0 <= m.value < 60 then
                Some(3_600_000 * h.value + 60_000 * m.value)
              else None
  {
    SplitFirst(hour, ':', minute);
    SplitWhole(minute, ':');
  }

  lemma {:induction false} PartsByColons(t: string)
    ensures |Split(t, ':')| == 1 + multiset(t)[':']
  {
    if t != "" {
      PartsByColons(t[1..]);
      assert t == [t[0]] + t[1..];
    }
  }

  /** Without a colon, or with more than one, an entry is skipped. */
  lemma OneColonIsNeeded(t: string)
    requires multiset(t)[':'] != 1
    ensures TimeOfDay(t) == None
  {
    PartsByColons(t);
  }

  /** Every hh:mm is read back as the time of day it shows, and is skipped exactly when there is no such time. */
  lemma RenderedIsRead(h: int, m: int)
    requires 0 <= h < 100 && 0 <= m < 100
    ensures TimeOfDay(Rendered(h, m)) == if h < 24 && m < 60 then Some(h * HOUR + m * MINUTE) else None
  {
    var hh, mm := [Digit(h / 10), Digit(h % 10)], [Digit(m / 10), Digit(m % 10)];
    assert Rendered(h, m) == hh + [':'] + mm;
    SplitFirst(hh, ':', mm);
    SplitWhole(mm, ':');
    TwoDigits(h);
    TwoDigits(m);
  }

  /** The occurrence of a time of day after now: today's, or tomorrow's if that is not in the future. */
  function NextOf(timeOfDay: int, now: int): int {
    var cand := now - now % DAY + timeOfDay;
    if cand > now then cand else cand + DAY
  }

  function Earlier(best: Option<int>, ms: int): Option<int> {
    if best.None? || ms < best.value then Some(ms) else best
  }

  /** The earliest next occurrence over all entries. */
  function NextScheduled(times: seq<string>, now: int): Option<int>
    decreases |times|
  {
    if times == [] then None else
    var best := NextScheduled(times[..|times| - 1], now);
    match TimeOfDay(times[|times| - 1])
    case None => best
    case Some(tod) => Earlier(best, NextOf(tod, now))
  }

  method NextScheduledMillis(times: seq<string>, now: int) returns (best: Option<int>)
    ensures best == NextScheduled(times, now)
  {
    best := None;
    for i := 0 to |times|
      invariant best == NextScheduled(times[..i], now)
    {
      assert times[..i + 1][..i] == times[..i];
      var parts := Split(times[i], ':');
      if |parts| != 2 {
        continue;
      }
      var h := ToIntOrNull(parts[0]);
      if h.None? {
        continue;
      }
      var m := ToIntOrNull(parts[1]);
      if m.None? {
        continue;
      }
      if !(0 <= h.value <= 23) || !(0 <= m.value <= 59) {
        continue;
      }
      var cand := now - now % DAY + h.value * HOUR + m.value * MINUTE;
      if !(cand > now) {
        cand := cand + DAY;
      }
      if best.None? || cand < best.value {
        best := Some(cand);
      }
    }
    assert times[..|times|] == times;
  }

  // --- The next occurrence ---

  /** x is an occurrence of some valid entry. */
  predicate Occurs(times: seq<string>, x: int) {
    exists i :: 0 <= i < |times| && TimeOfDay(times[i]) == Some(x % DAY)
  }

  predicate AnyValid(times: seq<string>) {
    exists i :: 0 <= i < |times| && TimeOfDay(times[i]).Some?
  }

  lemma NextOfIsNext(tod: int, now: int)
    requires 0 <= tod < DAY
    ensures var x := NextOf(tod, now);
            now < x <= now + DAY && x % DAY == tod && forall y :: now < y < x ==> y % DAY != tod
  {
    var midnight := now - now % DAY;
    assert midnight == now / DAY * DAY;
    var x := NextOf(tod, now);
    SameTimeOfDay(now / DAY, tod);
    SameTimeOfDay(now / DAY + 1, tod);
  }

  lemma SameTimeOfDay(day: int, tod: int)
    requires 0 <= tod < DAY
    ensures (day * DAY + tod) % DAY == tod
  {
  }

  /** There is no next occurrence exactly when no entry is valid; otherwise it is the least occurrence of any
      valid entry strictly after now, at most a day ahead. */
  lemma {:induction false} NextScheduledIsLeast(times: seq<string>, now: int)
    ensures var r := NextScheduled(times, now);
            && (r.None? <==> !AnyValid(times))
            && (r.Some? ==> now < r.value <= now + DAY && Occurs(times, r.value)
                            && forall x :: now < x < r.value ==> !Occurs(times, x))
    decreases |times|
  {
    if times != [] {
      var n := |times| - 1;
      var front := times[..n];
      NextScheduledIsLeast(front, now);
      assert AnyValid(times) <==> AnyValid(front) || TimeOfDay(times[n]).Some? by {
        if i :| 0 <= i < |front| && TimeOfDay(front[i]).Some? {
          assert times[i] == front[i];
        }
        if i :| 0 <= i < |times| && TimeOfDay(times[i]).Some? {
          assert i == n || times[i] == front[i];
        }
      }
      forall x ensures Occurs(times, x) <==> Occurs(front, x) || TimeOfDay(times[n]) == Some(x % DAY) {
        OccursSplit(times, x);
      }
      if TimeOfDay(times[n]).Some? {
        NextOfIsNext(TimeOfDay(times[n]).value, now);
      }
    }
  }

  lemma OccursSplit(times: seq<string>, x: int)
    requires times != []
    ensures var n := |times| - 1;
            Occurs(times, x) <==> Occurs(times[..n], x) || TimeOfDay(times[n]) == Some(x % DAY)
  {
    var n := |times| - 1;
    if i :| 0 <= i < |times| && TimeOfDay(times[i]) == Some(x % DAY) {
      assert i == n || times[..n][i] == times[i];
    }
    if i :| 0 <= i < n && TimeOfDay(times[..n][i]) == Some(x % DAY) {
      assert times[i] == times[..n][i];
    }
  }

  // --- Re-arming from each wake-up ---

  /** The wake-up number k, counting from 0, when each one re-arms the next from its own time. */
  function Wake(times: seq<string>, now: int, k: nat): Option<int>
    decreases k
  {
    match NextScheduled(times, now)
    case None => None
    case Some(next) => if k == 0 then Some(next) else Wake(times, next, k - 1)
  }

  lemma {:induction false} WakeOccurs(times: seq<string>, now: int, k: nat)
    requires Wake(times, now, k).Some?
    ensures Occurs(times, Wake(times, now, k).value) && now < Wake(times, now, k).value
    ensures Wake(times, now, k + 1).Some? && Wake(times, now, k).value < Wake(times, now, k + 1).value
    decreases k
  {
    NextScheduledIsLeast(times, now);
    var next := NextScheduled(times, now).value;
    NextScheduledIsLeast(times, next);
    if k > 0 {
      WakeOccurs(times, next, k - 1);
    }
  }

  lemma NextIsNotLater(times: seq<string>, now: int, x: int)
    requires Occurs(times, x) && now < x
    ensures NextScheduled(times, now).Some? && now < NextScheduled(times, now).value <= x
  {
    NextScheduledIsLeast(times, now);
    assert AnyValid(times);
  }

  lemma {:induction false} OccurrenceIsWoken(times: seq<string>, now: int, x: int) returns (k: nat)
    requires Occurs(times, x) && now < x
    ensures Wake(times, now, k) == Some(x)
    decreases x - now
  {
    NextIsNotLater(times, now, x);
    var next := NextScheduled(times, now).value;
    if next == x {
      k := 0;
    } else {
      var j := OccurrenceIsWoken(times, next, x);
      k := j + 1;
    }
  }

  /** Re-arming lists exactly the occurrences after now, each of them, in ascending order. */
  lemma WakesAreTheOccurrences(times: seq<string>, now: int, x: int)
    ensures (exists k: nat :: Wake(times, now, k) == Some(x)) <==> Occurs(times, x) && now < x
    ensures forall k: nat :: Wake(times, now, k).Some? ==>
              Wake(times, now, k + 1).Some? && Wake(times, now, k).value < Wake(times, now, k + 1).value
  {
    forall k: nat | Wake(times, now, k).Some?
      ensures Occurs(times, Wake(times, now, k).value) && now < Wake(times, now, k).value
      ensures Wake(times, now, k + 1).Some? && Wake(times, now, k).value < Wake(times, now, k + 1).value
    {
      WakeOccurs(times, now, k);
    }
    if Occurs(times, x) && now < x {
      var k := OccurrenceIsWoken(times, now, x);
    }
  }

  // --- The jobs of a wake plan ---

  const MIN_WAKE_INTERVAL_MIN := 15

  datatype WakePlan = WakePlan(mode: string, periodicMinutes: int, onChangePollMinutes: int,
                               scheduledTimes: seq<string>)

  datatype Role = Trigger | Poll | Scheduled

  datatype PlannedWork = PlannedWork(name: string, role: Role, periodicMinutes: int, oneTimeDelayMs: int)

  function ClampWakeInterval(requested: int): int {
    if requested < MIN_WAKE_INTERVAL_MIN then MIN_WAKE_INTERVAL_MIN else requested
  }

  function PlanWorks(plan: WakePlan, now: int): seq<PlannedWork> {
    if plan.mode == "periodic" then
      [PlannedWork("wesync-sync-periodic", Trigger, ClampWakeInterval(plan.periodicMinutes), 0)]
    else if plan.mode == "on_change_poll" then
      [PlannedWork("wesync-sync-poll", Poll, ClampWakeInterval(plan.onChangePollMinutes), 0),
       PlannedWork("wesync-sync-safety", Trigger, ClampWakeInterval(plan.periodicMinutes), 0)]
    else if plan.mode == "scheduled" then
      match NextScheduled(plan.scheduledTimes, now)
      case None => []
      case Some(next) => [PlannedWork("wesync-sync-scheduled", Scheduled, 0, if next - now < 0 then 0 else next - now)]
    else []
  }

  /** A periodic mode gets the interval it asks for, but never less than 15 minutes: a job that always syncs, and in the
      mode that watches for changes another one before it, which syncs only if something changed. */
  lemma IntervalsAreKept(plan: WakePlan, now: int)
    ensures plan.mode == "periodic" ==>
              PlanWorks(plan, now)
              == [PlannedWork("wesync-sync-periodic", Trigger, Max(15, plan.periodicMinutes), 0)]
    ensures plan.mode == "on_change_poll" ==>
              PlanWorks(plan, now)
              == [PlannedWork("wesync-sync-poll", Poll, Max(15, plan.onChangePollMinutes), 0),
                  PlannedWork("wesync-sync-safety", Trigger, Max(15, plan.periodicMinutes), 0)]
    ensures plan.mode == "scheduled" ==>
              PlanWorks(plan, now)
              == match NextScheduled(plan.scheduledTimes, now)
                 case None => []
                 case Some(next) => [PlannedWork("wesync-sync-scheduled", Scheduled, 0, next - now)]
  {
    NextScheduledIsLeast(plan.scheduledTimes, now);
  }

  function Max(a: int, b: int): int {
    if a < b then b else a
  }

  /** Every job is either periodic at no less than the floor, or fires once, in the future and within a day, at an
      occurrence with no other before it; and a plan that may sync always has a job that triggers unconditionally. */
  lemma PlanIsSound(plan: WakePlan, now: int)
    ensures var works := PlanWorks(plan, now);
            && (forall w :: w in works ==>
                  if w.role == Scheduled then
                    && w.periodicMinutes == 0 && 0 < w.oneTimeDelayMs <= DAY
                    && Occurs(plan.scheduledTimes, now + w.oneTimeDelayMs)
                    && forall x :: now < x < now + w.oneTimeDelayMs ==> !Occurs(plan.scheduledTimes, x)
                  else w.periodicMinutes >= MIN_WAKE_INTERVAL_MIN)
            && (works == [] <==> plan.mode !in {"periodic", "on_change_poll"}
                                 && (plan.mode == "scheduled" ==> !AnyValid(plan.scheduledTimes)))
            && (works != [] ==> exists w :: w in works && w.role != Poll)
  {
    NextScheduledIsLeast(plan.scheduledTimes, now);
    var works := PlanWorks(plan, now);
    if works != [] {
      assert works[|works| - 1] in works && works[|works| - 1].role != Poll;
    }
  }
}
