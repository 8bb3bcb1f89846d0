/** The periodic scheduler: when an entry fires next, and which instants the ticker fires. Instants are
    microseconds since an hour-aligned UTC midnight. */
module Scheduler {
  import opened Options

  const Minute: int := 60_000_000
  const Hour: int := 3_600_000_000

  datatype Entry = Entry(name: string, minute: nat, taskName: string, queue: string, hours: Option<set<int>>)

  function HourOfDay(t: int): int {
    (t / Hour) % 24
  }

  predicate AllowsHour(e: Entry, h: int) {
    e.hours.None? || h in e.hours.value
  }

  /** The instants of an entry: its minute, on the dot, in an allowed hour. */
  predicate Matches(e: Entry, t: int) {
    t % Hour == e.minute * Minute && AllowsHour(e, HourOfDay(t))
  }

  /** The hour `j` hours after hour `h` is allowed. */
  predicate AllowsAfter(e: Entry, h: int, j: int) {
    AllowsHour(e, (h + j) % 24)
  }

  /** Some hour of the day is allowed. */
  predicate Satisfiable(e: Entry) {
    exists h :: 0 <= h < 24 && AllowsHour(e, h)
  }

  /** The least matching instant strictly after `now`. */
  ghost predicate IsNext(e: Entry, now: int, t: int) {
    now < t && Matches(e, t) && forall u :: now < u < t ==> !Matches(e, u)
  }

  // ------------------------------------------------------------ next_fire_at

  /** The first instant after `now` on the entry's minute. */
  function FirstCandidate(e: Entry, now: int): int {
    var c := now / Hour * Hour + e.minute * Minute;
    if c <= now then c + Hour else c
  }

  lemma {:induction false} FirstCandidateSpec(e: Entry, now: int)
    requires e.minute < 60
    ensures var c := FirstCandidate(e, now); now < c <= now + Hour && c % Hour == e.minute * Minute
  {
  }

  /** The instants on one minute are exactly whole hours apart. */
  lemma {:induction false} HoursApart(c: int, u: int)
    requires c % Hour == u % Hour && c - Hour < u
    ensures u >= c && u == c + (u - c) / Hour * Hour
  {
  }

  lemma {:induction false} LaterHour(c: int, k: nat)
    ensures HourOfDay(c + k * Hour) == (HourOfDay(c) + k) % 24
    ensures (c + k * Hour) % Hour == c % Hour
  {
    assert (c + k * Hour) / Hour == c / Hour + k;
  }

  /** Nothing on the entry's minute lies between `now` and the candidate that the walk has rejected. */
  lemma {:induction false} RejectedHours(e: Entry, now: int, k: nat, u: int)
    requires e.minute < 60 && now < u < FirstCandidate(e, now) + k * Hour
    requires forall j :: 0 <= j < k ==> !AllowsAfter(e, HourOfDay(FirstCandidate(e, now)), j)
    ensures !Matches(e, u)
  {
    var c := FirstCandidate(e, now);
    FirstCandidateSpec(e, now);
    if u % Hour == e.minute * Minute {
      HoursApart(c, u);
      var j := (u - c) / Hour;
      LaterHour(c, j);
      assert !AllowsAfter(e, HourOfDay(c), j);
    }
  }

  lemma {:induction false} SomeHourAllowed(e: Entry, h0: int)
    requires Satisfiable(e) && 0 <= h0 < 24
    ensures exists j :: 0 <= j < 24 && AllowsAfter(e, h0, j)
  {
    var h :| 0 <= h < 24 && AllowsHour(e, h);
    var j := (h - h0) % 24;
    assert (h0 + j) % 24 == h;
    assert AllowsAfter(e, h0, j);
  }

  /** For a satisfiable entry the result is the least matching instant after `now`, at most a day away.
      An entry with no possible hour matches nothing, and the walk still returns an instant. */
  method NextFireAt(e: Entry, now: int) returns (t: int)
    requires e.minute < 60
    ensures Satisfiable(e) ==> IsNext(e, now, t) && t <= now + 24 * Hour
    ensures !Satisfiable(e) ==> t == Fallback(e, now) && forall u :: !Matches(e, u)
  {
    var candidate := now / Hour * Hour + e.minute * Minute;
    if candidate <= now {
      candidate := candidate + Hour;
    }
    ghost var first := candidate;
    FirstCandidateSpec(e, now);
    if e.hours.None? {
      NoneAllowsNoon(e);
      forall u | now < u < first
        ensures !Matches(e, u)
      {
        RejectedHours(e, now, 0, u);
      }
      return candidate;
    }
    for k := 0 to 24
      invariant candidate == first + k * Hour
      invariant forall j :: 0 <= j < k ==> !AllowsAfter(e, HourOfDay(first), j)
    {
      LaterHour(first, k);
      assert AllowsAfter(e, HourOfDay(first), k) <==> AllowsHour(e, HourOfDay(candidate));
      if HourOfDay(candidate) in e.hours.value {
        assert Matches(e, candidate);
        assert Satisfiable(e) by {
          assert AllowsHour(e, HourOfDay(candidate));
        }
        forall u | now < u < candidate
          ensures !Matches(e, u)
        {
          RejectedHours(e, now, k, u);
        }
        return candidate;
      }
      candidate := candidate + Hour;
    }
    if Satisfiable(e) {
      SomeHourAllowed(e, HourOfDay(first));
    }
    assert forall u :: Matches(e, u) ==> AllowsHour(e, HourOfDay(u)) && 0 <= HourOfDay(u) < 24;
    t := candidate;
  }

  lemma {:induction false} NoneAllowsNoon(e: Entry)
    requires e.hours.None?
    ensures Satisfiable(e)
  {
    assert AllowsHour(e, 12);
  }

  // ----------------------------------------------------------------- soonest

  predicate ValidMinutes(schedule: seq<Entry>) {
    forall i :: 0 <= i < |schedule| ==> schedule[i].minute < 60
  }

  predicate AnySatisfiable(schedule: seq<Entry>) {
    exists i :: 0 <= i < |schedule| && Satisfiable(schedule[i])
  }

  predicate AnyMatches(schedule: seq<Entry>, t: int) {
    exists i :: 0 <= i < |schedule| && Matches(schedule[i], t)
  }

  /** The entries that fire at `t`, in schedule order. */
  function DueAt(schedule: seq<Entry>, t: int): seq<Entry> {
    if schedule == [] then [] else
      DueAt(schedule[..|schedule| - 1], t) +
      if Matches(schedule[|schedule| - 1], t) then [schedule[|schedule| - 1]] else []
  }

  ghost predicate IsSoonest(schedule: seq<Entry>, now: int, t: int) {
    now < t && AnyMatches(schedule, t) && forall u :: now < u < t ==> !AnyMatches(schedule, u)
  }

  /** The instant the walk returns for an entry with no possible hour. */
  function Fallback(e: Entry, now: int): int {
    FirstCandidate(e, now) + 24 * Hour
  }

  /** The entries whose fallback instant is `t`, in schedule order. */
  function FallingBackAt(schedule: seq<Entry>, now: int, t: int): seq<Entry> {
    if schedule == [] then [] else
      FallingBackAt(schedule[..|schedule| - 1], now, t) +
      if Fallback(schedule[|schedule| - 1], now) == t then [schedule[|schedule| - 1]] else []
  }

  ghost predicate IsSoonestFallback(schedule: seq<Entry>, now: int, t: int) {
    && (exists i :: 0 <= i < |schedule| && Fallback(schedule[i], now) == t)
    && (forall i :: 0 <= i < |schedule| ==> t <= Fallback(schedule[i], now))
  }

  /** What one look at the schedule yields. As long as some entry can match, the least matching instant and all
      entries that match it; entries that never match play no part. If none can, their fallback instants
      decide, and they fire although no instant matches. */
  ghost predicate Fires(schedule: seq<Entry>, now: int, at: int, due: seq<Entry>) {
    if AnySatisfiable(schedule)
    then IsSoonest(schedule, now, at) && due == DueAt(schedule, at) && at <= now + 24 * Hour
    else IsSoonestFallback(schedule, now, at) && due == FallingBackAt(schedule, now, at)
  }

  /** What `NextFireAt` returns for one entry. */
  ghost predicate IsFire(e: Entry, now: int, t: int) {
    if Satisfiable(e) then IsNext(e, now, t) && t <= now + 24 * Hour
    else t == Fallback(e, now) && forall u :: !Matches(e, u)
  }

  lemma {:induction false} FallbackIsLate(e: Entry, now: int)
    requires e.minute < 60
    ensures now + 24 * Hour < Fallback(e, now) <= now + 25 * Hour
  {
    FirstCandidateSpec(e, now);
  }

  /** The least of the entries' instants is the soonest of the schedule. */
  lemma {:induction false} LeastIsSoonest(schedule: seq<Entry>, now: int, fires: seq<int>, k: nat)
    requires ValidMinutes(schedule) && |fires| == |schedule| && k < |schedule|
    requires forall i :: 0 <= i < |schedule| ==> IsFire(schedule[i], now, fires[i]) && fires[k] <= fires[i]
    ensures if AnySatisfiable(schedule) then IsSoonest(schedule, now, fires[k]) && fires[k] <= now + 24 * Hour
      else IsSoonestFallback(schedule, now, fires[k])
  {
    if i :| 0 <= i < |schedule| && Satisfiable(schedule[i]) {
      FallbackIsLate(schedule[k], now);
      assert IsFire(schedule[i], now, fires[i]) && IsFire(schedule[k], now, fires[k]);
      assert Matches(schedule[k], fires[k]);
      forall u | now < u < fires[k]
        ensures !AnyMatches(schedule, u)
      {
        forall j | 0 <= j < |schedule|
          ensures !Matches(schedule[j], u)
        {
          assert IsFire(schedule[j], now, fires[j]);
        }
      }
    } else {
      assert forall j :: 0 <= j < |schedule| ==> fires[j] == Fallback(schedule[j], now) by {
        assert forall j :: 0 <= j < |schedule| ==> !Satisfiable(schedule[j]) && IsFire(schedule[j], now, fires[j]);
      }
    }
  }

  /** An entry's instant is the soonest one exactly when the entry is due then. */
  lemma {:induction false} DueExactly(schedule: seq<Entry>, now: int, at: int, e: Entry, t: int)
    requires e.minute < 60 && IsFire(e, now, t) && at <= t
    requires AnySatisfiable(schedule) ==> now < at <= now + 24 * Hour
    requires Satisfiable(e) ==> AnySatisfiable(schedule)
    ensures t == at <==> if AnySatisfiable(schedule) then Matches(e, at) else Fallback(e, now) == at
  {
    FallbackIsLate(e, now);
  }

  /** The soonest instant of the whole schedule and every entry that fires then. An entry that never matches
      is among them if and only if no entry of the schedule can match. */
  method Soonest(schedule: seq<Entry>, now: int) returns (at: int, due: seq<Entry>)
    requires schedule != [] && ValidMinutes(schedule)
    ensures Fires(schedule, now, at, due)
    ensures forall e :: e in due ==> (Satisfiable(e) <==> AnySatisfiable(schedule))
  {
    var fires: seq<int> := [];
    for i := 0 to |schedule|
      invariant |fires| == i
      invariant forall j :: 0 <= j < i ==> IsFire(schedule[j], now, fires[j])
    {
      var t := NextFireAt(schedule[i], now);
      fires := fires + [t];
    }
    at := fires[0];
    ghost var k := 0;
    for i := 1 to |schedule|
      invariant k < |schedule| && at == fires[k]
      invariant forall j :: 0 <= j < i ==> at <= fires[j]
    {
      if fires[i] < at {
        at, k := fires[i], i;
      }
    }
    LeastIsSoonest(schedule, now, fires, k);
    due := PickDue(schedule, now, fires, at);
  }

  method PickDue(schedule: seq<Entry>, now: int, fires: seq<int>, at: int) returns (due: seq<Entry>)
    requires ValidMinutes(schedule) && |fires| == |schedule|
    requires forall i :: 0 <= i < |schedule| ==> IsFire(schedule[i], now, fires[i]) && at <= fires[i]
    requires AnySatisfiable(schedule) ==> now < at <= now + 24 * Hour
    ensures due == if AnySatisfiable(schedule) then DueAt(schedule, at) else FallingBackAt(schedule, now, at)
    ensures forall e :: e in due ==> (Satisfiable(e) <==> AnySatisfiable(schedule))
  {
    due := [];
    for i := 0 to |schedule|
      invariant due ==
        if AnySatisfiable(schedule) then DueAt(schedule[..i], at) else FallingBackAt(schedule[..i], now, at)
      invariant forall e :: e in due ==> (Satisfiable(e) <==> AnySatisfiable(schedule))
    {
      assert schedule[..i + 1][..i] == schedule[..i];
      DueExactly(schedule, now, at, schedule[i], fires[i]);
      if fires[i] == at {
        due := due + [schedule[i]];
      }
    }
    assert schedule[..|schedule|] == schedule;
  }

  // ------------------------------------------------------------------ ticker

  /** One turn of the ticker: the first and the last clock read it made, by position, the instant it slept
      to and what it fired. */
  datatype Wake = Wake(start: nat, now: int, stop: nat, at: int, due: seq<Entry>)

  ghost predicate Ran(schedule: seq<Entry>, log: seq<Wake>) {
    && (forall i :: 0 <= i < |log| ==>
          IsSoonest(schedule, log[i].now, log[i].at) && log[i].due == DueAt(schedule, log[i].at))
    && (forall i :: 0 <= i < |log| - 1 ==> log[i].at <= log[i + 1].now)
  }

  predicate Nondecreasing(clock: seq<int>) {
    forall i, j :: 0 <= i <= j < |clock| ==> clock[i] <= clock[j]
  }

  /** A turn read the clock at `start`, slept through the reads below the soonest instant and stopped at
      the first read that had reached it. */
  ghost predicate IsTurn(schedule: seq<Entry>, clock: seq<int>, w: Wake) {
    && w.start <= w.stop < |clock| && w.now == clock[w.start] && w.at <= clock[w.stop]
    && (forall j :: w.start <= j < w.stop ==> clock[j] < w.at)
    && Fires(schedule, w.now, w.at, w.due)
  }

  /** The read the next turn starts with. */
  function NextRead(log: seq<Wake>): nat {
    if log == [] then 0 else log[|log| - 1].stop + 1
  }

  /** The reads that are left do not complete a turn. */
  ghost predicate Unfinished(schedule: seq<Entry>, clock: seq<int>, start: nat) {
    start < |clock| ==>
      exists at, due :: Fires(schedule, clock[start], at, due) && forall j :: start <= j < |clock| ==> clock[j] < at
  }

  /** Complete turns, each starting with the read after the one the previous turn ended with. */
  ghost predicate Turns(schedule: seq<Entry>, clock: seq<int>, log: seq<Wake>) {
    && (forall i :: 0 <= i < |log| ==> IsTurn(schedule, clock, log[i]))
    && (log != [] ==> log[0].start == 0)
    && (forall i :: 0 <= i < |log| - 1 ==> log[i + 1].start == log[i].stop + 1)
  }

  /** `log` is what the ticker fires when it sees exactly these clock reads; without entries it idles. */
  ghost predicate Follows(schedule: seq<Entry>, clock: seq<int>, log: seq<Wake>) {
    if schedule == [] then log == [] else Turns(schedule, clock, log) && Unfinished(schedule, clock, NextRead(log))
  }

  lemma {:induction false} TurnsGrow(schedule: seq<Entry>, clock: seq<int>, log: seq<Wake>, w: Wake)
    requires Turns(schedule, clock, log) && IsTurn(schedule, clock, w) && w.start == NextRead(log)
    ensures Turns(schedule, clock, log + [w]) && NextRead(log + [w]) == w.stop + 1
  {
  }

  /** Sleeps in slices, reading the clock after each, until it has reached `at` or the reads end. */
  method SleepUntil(clock: seq<int>, start: nat, at: int) returns (stop: nat)
    requires start < |clock|
    ensures start <= stop < |clock| && (clock[stop] >= at || stop + 1 == |clock|)
    ensures forall j :: start <= j < stop ==> clock[j] < at
  {
    stop := start;
    while clock[stop] < at && stop + 1 < |clock|
      invariant start <= stop < |clock|
      invariant forall j :: start <= j < stop ==> clock[j] < at
      decreases |clock| - stop
    {
      stop := stop + 1;
    }
  }

  /** The ticker over a finite list of clock reads; the end of the list is a stop. */
  method RunForever(schedule: seq<Entry>, clock: seq<int>) returns (log: seq<Wake>)
    requires ValidMinutes(schedule)
    ensures Follows(schedule, clock, log)
  {
    log := [];
    if schedule == [] {
      return;
    }
    var next := 0;
    while next < |clock|
      invariant next == NextRead(log) <= |clock|
      invariant Turns(schedule, clock, log)
      decreases |clock| - next
    {
      var at, due := Soonest(schedule, clock[next]);
      var stop := SleepUntil(clock, next, at);
      if clock[stop] < at {
        assert Unfinished(schedule, clock, next);
        return;
      }
      TurnsGrow(schedule, clock, log, Wake(next, clock[next], stop, at, due));
      log := log + [Wake(next, clock[next], stop, at, due)];
      next := stop + 1;
    }
  }

  /** Every run of the ticker over a clock that never goes back is a chain of turns, whatever entries that
      never match the schedule holds besides. */
  lemma {:induction false} FollowsRan(schedule: seq<Entry>, clock: seq<int>, log: seq<Wake>)
    requires Follows(schedule, clock, log) && Nondecreasing(clock) && AnySatisfiable(schedule)
    ensures Ran(schedule, log)
  {
    forall i | 0 <= i < |log| - 1
      ensures log[i].at <= log[i + 1].now
    {
      assert IsTurn(schedule, clock, log[i]) && IsTurn(schedule, clock, log[i + 1]);
      assert log[..i + 1][i] == log[i];
    }
  }

  /** With no entry that can match, the ticker still fires: every turn, 24 to 25 hours after its clock read, at
      an instant that matches nothing. */
  lemma {:induction false} NeverMatchingStillFires(schedule: seq<Entry>, clock: seq<int>, log: seq<Wake>, i: nat)
    requires Follows(schedule, clock, log) && ValidMinutes(schedule) && !AnySatisfiable(schedule) && i < |log|
    ensures log[i].due != [] && log[i].now + 24 * Hour < log[i].at <= log[i].now + 25 * Hour
    ensures !AnyMatches(schedule, log[i].at)
  {
    assert IsTurn(schedule, clock, log[i]);
    var k :| 0 <= k < |schedule| && Fallback(schedule[k], log[i].now) == log[i].at;
    FallbackIsLate(schedule[k], log[i].now);
    SomeFallBack(schedule, log[i].now, log[i].at, k);
    forall j | 0 <= j < |schedule|
      ensures !Matches(schedule[j], log[i].at)
    {
      assert !Satisfiable(schedule[j]);
      assert Matches(schedule[j], log[i].at) ==> AllowsHour(schedule[j], HourOfDay(log[i].at));
    }
  }

  lemma {:induction false} SomeFallBack(schedule: seq<Entry>, now: int, t: int, k: nat)
    requires k < |schedule| && Fallback(schedule[k], now) == t
    ensures FallingBackAt(schedule, now, t) != []
  {
    var last := |schedule| - 1;
    if k < last {
      SomeFallBack(schedule[..last], now, t, k);
    }
  }

  lemma {:induction false} WakesIncrease(schedule: seq<Entry>, log: seq<Wake>, i: nat, j: nat)
    requires Ran(schedule, log) && i < j < |log|
    ensures log[i].at <= log[j].now < log[j].at
  {
    if i + 1 < j {
      WakesIncrease(schedule, log, i, j - 1);
    }
  }

  predicate FiresAt(log: seq<Wake>, t: int) {
    exists i :: 0 <= i < |log| && log[i].at == t
  }

  /** `t` fell between a fire and the next clock read. */
  predicate InGap(log: seq<Wake>, t: int) {
    exists i :: 0 <= i < |log| - 1 && log[i].at < t <= log[i + 1].now
  }

  lemma {:induction false} FireIsNoGap(schedule: seq<Entry>, log: seq<Wake>, i: nat, k: nat)
    requires Ran(schedule, log) && i < |log| && k + 1 < |log|
    ensures !(log[k].at < log[i].at <= log[k + 1].now)
  {
    if i < k {
      WakesIncrease(schedule, log, i, k);
    } else if k + 1 < i {
      WakesIncrease(schedule, log, k + 1, i);
    }
  }

  /** Of the instants some entry matches, the ticker fires exactly those that do not fall into the gap
      between a fire and the clock read after it. */
  lemma {:induction false} FiresExactlyOutsideGaps(schedule: seq<Entry>, log: seq<Wake>, t: int)
    requires Ran(schedule, log) && log != [] && log[0].now < t <= log[|log| - 1].at
    ensures FiresAt(log, t) <==> AnyMatches(schedule, t) && !InGap(log, t)
  {
    if FiresAt(log, t) {
      var i :| 0 <= i < |log| && log[i].at == t;
      forall k | 0 <= k < |log| - 1
        ensures !(log[k].at < t <= log[k + 1].now)
      {
        FireIsNoGap(schedule, log, i, k);
      }
    } else if AnyMatches(schedule, t) {
      var i := TurnOf(log, t);
      assert IsSoonest(schedule, log[i].now, log[i].at);
      assert i > 0 && log[i - 1].at < t <= log[i].now;
    }
  }

  /** The first turn that reaches `t`. */
  lemma {:induction false} TurnOf(log: seq<Wake>, t: int) returns (i: nat)
    requires log != [] && t <= log[|log| - 1].at
    ensures i < |log| && t <= log[i].at && (i > 0 ==> log[i - 1].at < t)
    decreases |log|
  {
    i := |log| - 1;
    if i > 0 && t <= log[i - 1].at {
      i := TurnOf(log[..i], t);
    }
  }

  /** The clock is read again within a minute of every fire. */
  predicate Prompt(log: seq<Wake>) {
    forall i :: 0 <= i < |log| - 1 ==> log[i + 1].now < log[i].at + Minute
  }

  /** Instants are whole minutes, so two of them are at least a minute apart. */
  lemma {:induction false} MinutesApart(schedule: seq<Entry>, t: int, u: int)
    requires AnyMatches(schedule, t) && AnyMatches(schedule, u) && t < u
    ensures t + Minute <= u
  {
    var i :| 0 <= i < |schedule| && Matches(schedule[i], t);
    var j :| 0 <= j < |schedule| && Matches(schedule[j], u);
    WholeMinutes(schedule[i].minute, t);
    WholeMinutes(schedule[j].minute, u);
  }

  lemma {:induction false} WholeMinutes(minute: nat, t: int)
    requires t % Hour == minute * Minute
    ensures t % Minute == 0
  {
    assert t == t / Hour * Hour + minute * Minute;
    assert t == (t / Hour * 60 + minute) * Minute;
  }

  /** With a prompt clock every scheduled instant of every entry is fired, once, with all entries due. */
  lemma {:induction false} FiresExactlyOnce(schedule: seq<Entry>, log: seq<Wake>, t: int)
    requires Ran(schedule, log) && Prompt(log) && log != [] && log[0].now < t <= log[|log| - 1].at
    ensures AnyMatches(schedule, t) <==> FiresAt(log, t)
    ensures forall i, j :: 0 <= i < j < |log| ==> log[i].at != log[j].at
    ensures forall i :: 0 <= i < |log| && log[i].at == t ==> log[i].due == DueAt(schedule, t)
  {
    FiresExactlyOutsideGaps(schedule, log, t);
    if AnyMatches(schedule, t) {
      PromptHasNoGap(schedule, log, t);
    }
    forall i, j | 0 <= i < j < |log|
      ensures log[i].at != log[j].at
    {
      WakesIncrease(schedule, log, i, j);
    }
  }

  /** No scheduled instant falls into a gap shorter than a minute. */
  lemma {:induction false} PromptHasNoGap(schedule: seq<Entry>, log: seq<Wake>, t: int)
    requires Ran(schedule, log) && Prompt(log) && AnyMatches(schedule, t)
    ensures !InGap(log, t)
  {
    forall i | 0 <= i < |log| - 1 && log[i].at < t
      ensures log[i + 1].now < t
    {
      assert IsSoonest(schedule, log[i].now, log[i].at);
      assert log[i + 1].now < log[i].at + Minute;
      MinutesApart(schedule, log[i].at, t);
    }
  }
}
