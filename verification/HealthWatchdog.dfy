/** The GPU health watchdog on timed traces: it looks at whole windows and trips on one in which the GPU
    stayed idle and memory did not move. */
module HealthWatchdog {
  import opened Options

  datatype Settings = Settings(interval: nat, grace: nat, idlePct: int, ramDelta: int)

  /** What happens to an armed watchdog. `Start` and `Beat` open a window; a `Poll` samples the GPU and, at
      a checkpoint, the memory. A poll that closes a healthy window samples memory again and reads the clock
      again to open the next one. */
  datatype Ev =
    | Start(t: int, ram: Option<int>)
    | Beat(t: int, ram: Option<int>)
    | Poll(t: int, util: int, ram: Option<int>, ramAgain: Option<int>, tAgain: int)

  datatype Window = Window(maxUtil: int, anchor: Option<int>, checkpoint: int, tripped: bool)

  predicate Moved(c: Settings, anchor: Option<int>, ram: Option<int>) {
    && anchor.Some? && ram.Some?
    && (ram.value - anchor.value > c.ramDelta || anchor.value - ram.value > c.ramDelta)
  }

  function Max(a: int, b: int): int {
    if a < b then b else a
  }

  predicate Due(w: Window, ev: Ev)
    requires ev.Poll?
  {
    ev.t >= w.checkpoint
  }

  predicate Idle(c: Settings, w: Window, ev: Ev)
    requires ev.Poll?
  {
    Max(w.maxUtil, ev.util) <= c.idlePct && !Moved(c, w.anchor, ev.ram)
  }

  function Step(c: Settings, w: Window, ev: Ev): Window {
    if w.tripped then w else
    match ev
    case Start(t, ram) => Window(0, ram, t + c.grace, false)
    case Beat(t, ram) => Window(0, ram, t + c.interval, false)
    case Poll(_, util, _, ramAgain, tAgain) =>
      if !Due(w, ev) then w.(maxUtil := Max(w.maxUtil, util))
      else if Idle(c, w, ev) then w.(maxUtil := Max(w.maxUtil, util), tripped := true)
      else Window(0, ramAgain, tAgain + c.interval, false)
  }

  /** The window after a trace that begins by arming the watchdog. */
  function After(c: Settings, trace: seq<Ev>): Window
    requires trace != []
  {
    if |trace| == 1 then Step(c, Window(0, None, 0, false), trace[0])
    else Step(c, After(c, trace[..|trace| - 1]), trace[|trace| - 1])
  }

  // --------------------------------------------------- what a window has seen

  predicate Opens(c: Settings, w: Window, ev: Ev) {
    !w.tripped && (ev.Poll? ==> Due(w, ev) && !Idle(c, w, ev))
  }

  /** Position of the event that opened the current window. */
  function Opened(c: Settings, trace: seq<Ev>): (o: nat)
    requires trace != []
    ensures o < |trace|
  {
    var last := |trace| - 1;
    if last == 0 || Opens(c, After(c, trace[..last]), trace[last]) then last else Opened(c, trace[..last])
  }

  /** Memory and time at the opening. */
  function OpenRam(ev: Ev): Option<int> {
    if ev.Poll? then ev.ramAgain else ev.ram
  }

  function Checkpoint(c: Settings, ev: Ev): int {
    match ev
    case Start(t, _) => t + c.grace
    case Beat(t, _) => t + c.interval
    case Poll(_, _, _, _, tAgain) => tAgain + c.interval
  }

  /** The highest GPU sample of the events, never below zero. */
  function Peak(evs: seq<Ev>): (p: int)
    ensures p >= 0
    ensures forall i :: 0 <= i < |evs| && evs[i].Poll? ==> evs[i].util <= p
    ensures p == 0 || exists i :: 0 <= i < |evs| && evs[i].Poll? && evs[i].util == p
  {
    if evs == [] then 0 else
      var last := |evs| - 1;
      var front := evs[..last];
      var p := Peak(front);
      assert forall i :: 0 <= i < last ==> front[i] == evs[i];
      if evs[last].Poll? then Max(p, evs[last].util) else p
  }

  /** The fields describe the window that the event at `o` opened: the peak sample since then, and the
      memory and the deadline of the opening. */
  predicate Describes(c: Settings, w: Window, trace: seq<Ev>, o: nat)
    requires o < |trace|
  {
    w.anchor == OpenRam(trace[o]) && w.checkpoint == Checkpoint(c, trace[o]) && w.maxUtil == Peak(trace[o + 1..])
  }

  lemma {:induction false} SamplesOneMore(c: Settings, w: Window, trace: seq<Ev>, o: nat)
    requires 0 <= o < |trace| - 1 && trace[|trace| - 1].Poll? && !w.tripped && !Due(w, trace[|trace| - 1])
    requires Describes(c, w, trace[..|trace| - 1], o)
    ensures Describes(c, Step(c, w, trace[|trace| - 1]), trace, o)
  {
    var last := |trace| - 1;
    var seen := trace[o + 1..];
    assert seen[..|seen| - 1] == trace[..last][o + 1..] && seen[|seen| - 1] == trace[last];
    assert trace[..last][o] == trace[o];
  }

  lemma {:induction false} JustOpened(c: Settings, w: Window, trace: seq<Ev>)
    requires trace != [] && Opens(c, w, trace[|trace| - 1])
    ensures Describes(c, Step(c, w, trace[|trace| - 1]), trace, |trace| - 1)
  {
    assert trace[|trace|..] == [];
  }

  lemma {:induction false} WindowMeaning(c: Settings, trace: seq<Ev>)
    requires trace != [] && !trace[0].Poll? && !After(c, trace).tripped
    ensures Describes(c, After(c, trace), trace, Opened(c, trace))
  {
    var last := |trace| - 1;
    if last == 0 {
      JustOpened(c, Window(0, None, 0, false), trace);
    } else {
      var w := After(c, trace[..last]);
      if Opens(c, w, trace[last]) {
        JustOpened(c, w, trace);
      } else {
        WindowMeaning(c, trace[..last]);
        SamplesOneMore(c, w, trace, Opened(c, trace[..last]));
      }
    }
  }

  /** A poll trips exactly when the window is over, every sample since its opening was idle and memory did
      not move from the opening to now. So one busy sample or one memory movement saves the window. */
  lemma {:induction false} TripsExactly(c: Settings, trace: seq<Ev>, poll: Ev)
    requires trace != [] && !trace[0].Poll? && !After(c, trace).tripped && poll.Poll?
    ensures var o := Opened(c, trace);
      After(c, trace + [poll]).tripped <==>
        && poll.t >= Checkpoint(c, trace[o])
        && 0 <= c.idlePct && poll.util <= c.idlePct
        && (forall i :: o < i < |trace| && trace[i].Poll? ==> trace[i].util <= c.idlePct)
        && (OpenRam(trace[o]).Some? && poll.ram.Some? ==>
              -c.ramDelta <= poll.ram.value - OpenRam(trace[o]).value <= c.ramDelta)
  {
    WindowMeaning(c, trace);
    var o := Opened(c, trace);
    var seen := trace[o + 1..];
    assert (trace + [poll])[..|trace|] == trace;
    assert forall i :: o < i < |trace| ==> trace[i] == seen[i - o - 1];
    if Peak(seen) > c.idlePct && Peak(seen) > 0 {
      var k :| 0 <= k < |seen| && seen[k].Poll? && seen[k].util == Peak(seen);
      assert trace[k + o + 1] == seen[k];
    }
  }

  // ----------------------------------------------------------------- liveness

  /** When an event was over: a poll may read the clock a second time. */
  function EndOf(ev: Ev): int {
    if ev.Poll? then Max(ev.t, ev.tAgain) else ev.t
  }

  function LongestWindow(c: Settings): nat {
    if c.grace < c.interval then c.interval else c.grace
  }

  /** No window reaches further than the longest one from now. */
  lemma {:induction false} CheckpointSoon(c: Settings, trace: seq<Ev>, t0: int)
    requires trace != [] && !trace[0].Poll? && forall i :: 0 <= i < |trace| ==> EndOf(trace[i]) <= t0
    ensures After(c, trace).checkpoint <= t0 + LongestWindow(c)
  {
    var last := |trace| - 1;
    assert EndOf(trace[last]) <= t0;
    if last > 0 {
      CheckpointSoon(c, trace[..last], t0);
    }
  }

  /** The end of the poll before the one at `i`. */
  function Previous(polls: seq<Ev>, i: nat, t0: int): int
    requires i <= |polls|
  {
    if i == 0 then t0 else EndOf(polls[i - 1])
  }

  /** From some moment on: only polls, at most `poll` after the end of the previous one (or after `t0`), each
      over within `lag`, all idle, and all memory readings within the threshold of each other. */
  predicate Wedged(c: Settings, polls: seq<Ev>, t0: int, poll: nat, lag: nat) {
    && (forall i :: 0 <= i < |polls| ==> polls[i].Poll? && polls[i].util <= c.idlePct)
    && (forall i :: 0 <= i < |polls| ==> polls[i].t <= polls[i].tAgain <= polls[i].t + lag)
    && (forall i :: 0 <= i < |polls| ==> polls[i].t <= Previous(polls, i, t0) + poll)
    && (forall i, j :: 0 <= i < j < |polls| && polls[i].ramAgain.Some? && polls[j].ram.Some? ==>
          -c.ramDelta <= polls[j].ram.value - polls[i].ramAgain.value <= c.ramDelta)
  }

  function RunOn(c: Settings, w: Window, evs: seq<Ev>): Window {
    if evs == [] then w else Step(c, RunOn(c, w, evs[..|evs| - 1]), evs[|evs| - 1])
  }

  lemma {:induction false} WedgedPrefix(c: Settings, polls: seq<Ev>, k: nat, t0: int, poll: nat, lag: nat)
    requires Wedged(c, polls, t0, poll, lag) && k <= |polls|
    ensures Wedged(c, polls[..k], t0, poll, lag)
  {
    forall i | 0 <= i < k
      ensures polls[..k][i].t <= Previous(polls[..k], i, t0) + poll
    {
      assert Previous(polls[..k], i, t0) == Previous(polls, i, t0);
    }
  }

  /** Still in the window it was in when the wedge began. */
  predicate FirstPhase(w: Window, now: Window, polls: seq<Ev>) {
    now.checkpoint == w.checkpoint && !now.tripped && forall i :: 0 <= i < |polls| ==> polls[i].t < w.checkpoint
  }

  /** In the window that poll `o` opened. */
  predicate SecondPhase(c: Settings, now: Window, polls: seq<Ev>, o: nat) {
    && o < |polls| && polls[o].Poll?
    && now.checkpoint == polls[o].tAgain + c.interval && now.anchor == polls[o].ramAgain
    && now.maxUtil <= c.idlePct && !now.tripped
    && forall i :: o < i < |polls| ==> polls[i].t < now.checkpoint
  }

  /** An idle poll that does not trip a static window leaves it open. */
  lemma {:induction false} IdlePollNotDue(c: Settings, now: Window, ev: Ev)
    requires ev.Poll? && ev.util <= c.idlePct && now.maxUtil <= c.idlePct && !Moved(c, now.anchor, ev.ram)
    requires !now.tripped && !Step(c, now, ev).tripped
    ensures !Due(now, ev) && Step(c, now, ev) == now.(maxUtil := Max(now.maxUtil, ev.util))
  {
  }

  /** An untripped watchdog under a wedge is still in the window it was in, or in the one after it, which
      opened in time. */
  lemma {:induction false} WedgePhases(c: Settings, w: Window, polls: seq<Ev>, t0: int, poll: nat, lag: nat)
    returns (o: int)
    requires Wedged(c, polls, t0, poll, lag) && c.idlePct >= 0 && !RunOn(c, w, polls).tripped && !w.tripped
    requires w.checkpoint <= t0 + LongestWindow(c)
    ensures -1 <= o < |polls|
    ensures if o == -1 then FirstPhase(w, RunOn(c, w, polls), polls)
      else SecondPhase(c, RunOn(c, w, polls), polls, o) && polls[o].t <= t0 + LongestWindow(c) + lag + poll
  {
    o := -1;
    if polls != [] {
      var last := |polls| - 1;
      var front, ev := polls[..last], polls[last];
      WedgedPrefix(c, polls, last, t0, poll, lag);
      o := WedgePhases(c, w, front, t0, poll, lag);
      var now := RunOn(c, w, front);
      if o >= 0 {
        assert !Moved(c, polls[o].ramAgain, ev.ram);
        StaysInSecond(c, now, polls, o);
      } else if Due(now, ev) {
        o := last;
        assert ev.t <= Previous(polls, last, t0) + poll;
        if last > 0 {
          assert front[last - 1].t < w.checkpoint;
          assert polls[last - 1].tAgain <= polls[last - 1].t + lag;
        }
        EntersSecond(c, now, polls);
      } else {
        StaysInFirst(c, w, now, polls);
      }
    }
  }

  lemma {:induction false} StaysInFirst(c: Settings, w: Window, now: Window, polls: seq<Ev>)
    requires polls != [] && FirstPhase(w, now, polls[..|polls| - 1])
    requires polls[|polls| - 1].Poll? && !Due(now, polls[|polls| - 1])
    ensures FirstPhase(w, Step(c, now, polls[|polls| - 1]), polls)
  {
    assert forall i :: 0 <= i < |polls| - 1 ==> polls[..|polls| - 1][i] == polls[i];
  }

  lemma {:induction false} EntersSecond(c: Settings, now: Window, polls: seq<Ev>)
    requires polls != [] && polls[|polls| - 1].Poll? && Due(now, polls[|polls| - 1]) && c.idlePct >= 0
    requires !now.tripped && !Step(c, now, polls[|polls| - 1]).tripped
    ensures SecondPhase(c, Step(c, now, polls[|polls| - 1]), polls, |polls| - 1)
  {
  }

  lemma {:induction false} StaysInSecond(c: Settings, now: Window, polls: seq<Ev>, o: nat)
    requires polls != [] && SecondPhase(c, now, polls[..|polls| - 1], o)
    requires var ev := polls[|polls| - 1];
      ev.Poll? && ev.util <= c.idlePct && !Moved(c, now.anchor, ev.ram) && !Step(c, now, ev).tripped
    ensures SecondPhase(c, Step(c, now, polls[|polls| - 1]), polls, o)
  {
    IdlePollNotDue(c, now, polls[|polls| - 1]);
    assert forall i :: 0 <= i < |polls| - 1 ==> polls[..|polls| - 1][i] == polls[i];
  }

  lemma {:induction false} FirstTrip(c: Settings, w: Window, polls: seq<Ev>) returns (k: nat)
    requires !w.tripped && RunOn(c, w, polls).tripped
    ensures k < |polls| && !RunOn(c, w, polls[..k]).tripped && RunOn(c, w, polls[..k + 1]).tripped
  {
    var last := |polls| - 1;
    if RunOn(c, w, polls[..last]).tripped {
      k := FirstTrip(c, w, polls[..last]);
      assert polls[..last][..k] == polls[..k] && polls[..last][..k + 1] == polls[..k + 1];
    } else {
      k := last;
      assert polls[..last + 1] == polls;
    }
  }

  /** As long as it has not tripped, the next poll of a wedge comes early enough. */
  lemma {:induction false} NextPollSoon(c: Settings, w: Window, polls: seq<Ev>, k: nat, t0: int, poll: nat, lag: nat)
    requires Wedged(c, polls, t0, poll, lag) && c.idlePct >= 0 && k < |polls|
    requires !w.tripped && !RunOn(c, w, polls[..k]).tripped && w.checkpoint <= t0 + LongestWindow(c)
    ensures polls[k].t <= t0 + LongestWindow(c) + c.interval + 2 * poll + 3 * lag
  {
    WedgedPrefix(c, polls, k, t0, poll, lag);
    var o := WedgePhases(c, w, polls[..k], t0, poll, lag);
    assert polls[k].t <= Previous(polls, k, t0) + poll;
    if k > 0 {
      assert EndOf(polls[k - 1]) <= polls[k - 1].t + lag;
      assert polls[..k][k - 1] == polls[k - 1];
    }
  }

  lemma {:induction false} WedgeMustTrip(c: Settings, w: Window, polls: seq<Ev>, t0: int, poll: nat, lag: nat)
    requires Wedged(c, polls, t0, poll, lag) && c.idlePct >= 0 && !w.tripped && polls != []
    requires w.checkpoint <= t0 + LongestWindow(c)
    requires polls[|polls| - 1].t > t0 + LongestWindow(c) + c.interval + poll + 2 * lag
    ensures RunOn(c, w, polls).tripped
  {
    if !RunOn(c, w, polls).tripped {
      var o := WedgePhases(c, w, polls, t0, poll, lag);
    }
  }

  lemma {:induction false} AfterAppend(c: Settings, trace: seq<Ev>, polls: seq<Ev>)
    requires trace != []
    ensures After(c, trace + polls) == RunOn(c, After(c, trace), polls)
  {
    if polls == [] {
      assert trace + polls == trace;
    } else {
      var last := |polls| - 1;
      AfterAppend(c, trace, polls[..last]);
      assert (trace + polls)[..|trace| + last] == trace + polls[..last];
    }
  }

  /** A wedge is caught: with no beat from `t0` on, an idle GPU, static memory and polls at most `poll` apart,
      some poll trips no later than `t0` plus the longest window, one interval and two polls (and the time
      spent inside three polls), provided the loop is still polling by then. */
  lemma {:induction false} WedgeIsCaught(c: Settings, trace: seq<Ev>, polls: seq<Ev>, t0: int, poll: nat, lag: nat)
    returns (k: nat)
    requires trace != [] && !trace[0].Poll? && !After(c, trace).tripped
    requires forall i :: 0 <= i < |trace| ==> EndOf(trace[i]) <= t0
    requires Wedged(c, polls, t0, poll, lag) && c.idlePct >= 0 && polls != []
    requires polls[|polls| - 1].t > t0 + LongestWindow(c) + c.interval + poll + 2 * lag
    ensures k < |polls| && After(c, trace + polls[..k + 1]).tripped && !After(c, trace + polls[..k]).tripped
    ensures polls[k].t <= t0 + LongestWindow(c) + c.interval + 2 * poll + 3 * lag
  {
    var w := After(c, trace);
    CheckpointSoon(c, trace, t0);
    WedgeMustTrip(c, w, polls, t0, poll, lag);
    k := FirstTrip(c, w, polls);
    NextPollSoon(c, w, polls, k, t0, poll, lag);
    AfterAppend(c, trace, polls[..k]);
    AfterAppend(c, trace, polls[..k + 1]);
  }

  // ---------------------------------------------------------------- in place

  class Watchdog {
    const settings: Settings
    var armed: bool
    var maxUtil: int
    var ramAnchor: Option<int>
    var nextCheckpoint: int
    var tripped: bool

    function State(): Window
      reads this
    {
      Window(maxUtil, ramAnchor, nextCheckpoint, tripped)
    }

    constructor (settings: Settings)
      ensures this.settings == settings && !armed && State() == Window(0, None, 0, false)
    {
      this.settings := settings;
      armed, maxUtil, ramAnchor, nextCheckpoint, tripped := false, 0, None, 0, false;
    }

    method ResetWindow(t: int, ram: Option<int>, window: int)
      modifies this`maxUtil, this`ramAnchor, this`nextCheckpoint
      ensures State() == Window(0, ram, t + window, tripped)
    {
      maxUtil := 0;
      ramAnchor := ram;
      nextCheckpoint := t + window;
    }

    method StartAt(t: int, ram: Option<int>)
      requires !tripped
      modifies this
      ensures armed && State() == Step(settings, old(State()), Start(t, ram))
      ensures State() == Window(0, ram, t + settings.grace, false)
    {
      armed := true;
      ResetWindow(t, ram, settings.grace);
    }

    method BeatAt(t: int, ram: Option<int>)
      requires !tripped
      modifies this
      ensures armed && State() == Step(settings, old(State()), Beat(t, ram))
      ensures State() == Window(0, ram, t + settings.interval, false)
    {
      armed := true;
      ResetWindow(t, ram, settings.interval);
    }

    /** One iteration of the loop; an unarmed watchdog does nothing. */
    method PollOnce(t: int, util: int, ram: Option<int>, ramAgain: Option<int>, tAgain: int) returns (trip: bool)
      requires !tripped
      modifies this
      ensures armed == old(armed) && trip == tripped
      ensures State() ==
        if armed then Step(settings, old(State()), Poll(t, util, ram, ramAgain, tAgain)) else old(State())
    {
      trip := false;
      if !armed {
        return;
      }
      if util > maxUtil {
        maxUtil := util;
      }
      if t >= nextCheckpoint {
        trip := EvaluateWindow(ram, ramAgain, tAgain);
      }
    }

    method EvaluateWindow(ram: Option<int>, ramAgain: Option<int>, tAgain: int) returns (trip: bool)
      requires !tripped
      modifies this
      ensures armed == old(armed) && trip == tripped
      ensures trip <==>
        && old(maxUtil) <= settings.idlePct
        && (old(ramAnchor).Some? && ram.Some? ==>
              -settings.ramDelta <= ram.value - old(ramAnchor).value <= settings.ramDelta)
      ensures State() ==
        if trip then old(State()).(tripped := true) else Window(0, ramAgain, tAgain + settings.interval, false)
    {
      if maxUtil <= settings.idlePct && !Moved(settings, ramAnchor, ram) {
        tripped := true;
        return true;
      }
      ResetWindow(tAgain, ramAgain, settings.interval);
      trip := false;
    }
  }
}
