/** Fill before spill: which machine of the fleet may claim the next no-model GPU job. */
module VlmPool {
  import opened Options
  import opened Lexical
  import GpuSlots

  /** What the inline lane of a machine is running. With a pool list configured it also takes no-model jobs. */
  datatype Inline = Idle | WithModel | NoModel

  /** A machine of the fleet: its heartbeat row (label, advertised concurrency, whether it is recent) and what
      no heartbeat shows, its inline lane and its own count of pool jobs in flight. */
  datatype Box = Box(host: string, concurrency: int, recent: bool, inline: Inline, inflight: nat)

  /** A job row as the gate's count sees it. */
  datatype GpuJob = GpuJob(running: bool, model: Option<string>, claimedBy: Option<string>)

  /** The running no-model jobs held by `host`, by position. */
  function HeldBy(jobs: seq<GpuJob>, host: string): set<nat> {
    set i: nat | i < |jobs| && jobs[i].running && jobs[i].model == None && jobs[i].claimedBy == Some(host)
  }

  function Load(jobs: seq<GpuJob>, host: string): nat {
    |HeldBy(jobs, host)|
  }

  predicate DistinctHosts(fleet: seq<Box>) {
    forall i, j :: 0 <= i < j < |fleet| ==> fleet[i].host != fleet[j].host
  }

  /** What the gate takes for a recent box with a free slot. */
  predicate Free(jobs: seq<GpuJob>, b: Box) {
    b.recent && Load(jobs, b.host) < b.concurrency
  }

  /** `r` ranks strictly above a machine that calls itself `host` with concurrency `par`. */
  predicate RanksAbove(r: Box, host: string, par: int) {
    r.concurrency > par || (r.concurrency == par && Less(r.host, host))
  }

  predicate ShouldDefer(fleet: seq<Box>, jobs: seq<GpuJob>, host: string, par: int) {
    exists r :: r in fleet && RanksAbove(r, host, par) && Free(jobs, r)
  }

  /** `b` passes the gate when it advertises what it calls with. */
  predicate MayClaim(fleet: seq<Box>, jobs: seq<GpuJob>, b: Box) {
    !ShouldDefer(fleet, jobs, b.host, b.concurrency)
  }

  /** The gate on the rows it reads: a caller defers exactly when some recent box that advertises more, or the
      same under an earlier label, holds fewer running no-model jobs than it advertises. */
  lemma {:induction false} DefersExactly(fleet: seq<Box>, jobs: seq<GpuJob>, host: string, par: int)
    ensures ShouldDefer(fleet, jobs, host, par) <==>
      exists r :: r in fleet && r.recent
        && (r.concurrency > par || (r.concurrency == par && Less(r.host, host)))
        && |set i: nat | i < |jobs| && jobs[i] == GpuJob(true, None, Some(r.host))| < r.concurrency
  {
    forall r | r in fleet
      ensures HeldBy(jobs, r.host) == set i: nat | i < |jobs| && jobs[i] == GpuJob(true, None, Some(r.host))
    {
    }
  }

  predicate Above(a: Box, b: Box) {
    RanksAbove(a, b.host, b.concurrency)
  }

  lemma {:induction false} AboveTransitive(a: Box, b: Box, c: Box)
    requires Above(a, b) && Above(b, c)
    ensures Above(a, c)
  {
    if a.concurrency == c.concurrency {
      LessTransitive(a.host, b.host, c.host);
    }
  }

  lemma {:induction false} AboveTotal(a: Box, b: Box)
    requires a.host != b.host
    ensures Above(a, b) <==> !Above(b, a)
  {
    LessTotal(a.host, b.host);
    if Less(a.host, b.host) {
      LessAsymmetric(a.host, b.host);
    } else {
      LessAsymmetric(b.host, a.host);
    }
  }

  lemma {:induction false} NotAboveItself(a: Box)
    ensures !Above(a, a)
  {
    LessIrreflexive(a.host);
  }

  /** Among the boxes that satisfy `p`, the one that ranks above all the others. */
  lemma {:induction false} TopWhere(fleet: seq<Box>, p: Box -> bool) returns (top: Box)
    requires DistinctHosts(fleet) && exists b :: b in fleet && p(b)
    ensures top in fleet && p(top)
    ensures forall b :: b in fleet && p(b) && b != top ==> Above(top, b)
  {
    var last := |fleet| - 1;
    var front, x := fleet[..last], fleet[last];
    assert fleet == front + [x];
    if exists b :: b in front && p(b) {
      top := TopWhere(front, p);
      if p(x) {
        AboveTotal(top, x);
        if Above(x, top) {
          forall b | b in fleet && p(b) && b != x
            ensures Above(x, b)
          {
            if b != top {
              AboveTransitive(x, top, b);
            }
          }
          top := x;
        }
      }
    } else {
      top := x;
    }
  }

  /** With a box in the fleet that the gate counts as free, exactly one such box is not told to defer: the one
      that advertises most and, among those, has the earliest label. Whether that box can take a job is another
      question, see `WhenThePoolStarves`. */
  lemma {:induction false} ExactlyOneMayClaim(fleet: seq<Box>, jobs: seq<GpuJob>) returns (top: Box)
    requires DistinctHosts(fleet) && exists b :: b in fleet && b.recent && Load(jobs, b.host) < b.concurrency
    ensures top in fleet && top.recent && Load(jobs, top.host) < top.concurrency
    ensures forall b :: b in fleet && b.recent && Load(jobs, b.host) < b.concurrency ==>
      && (MayClaim(fleet, jobs, b) <==> b == top)
      && b.concurrency <= top.concurrency
      && (b.concurrency == top.concurrency && b != top ==> Less(top.host, b.host))
  {
    assert exists b :: b in fleet && Free(jobs, b);
    top := TopWhere(fleet, b => Free(jobs, b));
    forall b | b in fleet && Free(jobs, b)
      ensures MayClaim(fleet, jobs, b) <==> b == top
      ensures b != top ==> Above(top, b)
    {
      if b == top {
        forall r | r in fleet && Free(jobs, r)
          ensures !RanksAbove(r, top.host, top.concurrency)
        {
          if r == top {
            NotAboveItself(top);
          } else {
            SameHostSameBox(fleet, r, top);
            AboveTotal(top, r);
          }
        }
      } else {
        assert RanksAbove(top, b.host, b.concurrency);
      }
    }
  }

  lemma {:induction false} SameHostSameBox(fleet: seq<Box>, a: Box, b: Box)
    requires DistinctHosts(fleet) && a in fleet && b in fleet && a != b
    ensures a.host != b.host
  {
    var i :| 0 <= i < |fleet| && fleet[i] == a;
    var j :| 0 <= j < |fleet| && fleet[j] == b;
  }

  // ------------------------------------------------------ the gate and the room

  /** The box's own feeder would admit one more job: its counter is below its budget. */
  predicate HasRoom(b: Box) {
    b.inflight < GpuSlots.Budget(!b.inline.Idle?, b.concurrency)
  }

  /** Having room is what the worker's reservation tests. */
  lemma {:induction false} RoomIsReservable(b: Box, jobs: set<int>)
    ensures HasRoom(b) <==> b.inflight + (if b.inline.Idle? then 0 else 1) < b.concurrency
    ensures HasRoom(b) <==>
      GpuSlots.Take(GpuSlots.Slots(b.inflight, !b.inline.Idle?, false, jobs), GpuSlots.PoolReserve(b.concurrency)).held
  {
  }

  /** Free for the gate, full for its own feeder. */
  predicate Blocks(jobs: seq<GpuJob>, b: Box) {
    Free(jobs, b) && !HasRoom(b)
  }

  /** The job rows show what the box runs: its pool jobs and a no-model job in its inline lane. */
  predicate InStep(jobs: seq<GpuJob>, b: Box) {
    Load(jobs, b.host) == b.inflight + if b.inline.NoModel? then 1 else 0
  }

  /** What blocks: a model-backed inline job in the last slot. A no-model one is counted by both sides. */
  lemma {:induction false} WhatBlocks(jobs: seq<GpuJob>, b: Box)
    requires InStep(jobs, b)
    ensures Blocks(jobs, b) <==> b.recent && b.inline.WithModel? && Load(jobs, b.host) == b.concurrency - 1
  {
  }

  /** Some box can take a job and passes the gate. */
  predicate SomeoneClaims(fleet: seq<Box>, jobs: seq<GpuJob>) {
    exists b :: b in fleet && HasRoom(b) && MayClaim(fleet, jobs, b)
  }

  /** When the pool starves: with a box that has room, some box with room passes the gate if and only if no box
      ranked above the best of them is free for the gate. Such a box is full for its own feeder, so it makes
      everyone below it defer and cannot claim itself. */
  lemma {:induction false} WhenThePoolStarves(fleet: seq<Box>, jobs: seq<GpuJob>) returns (best: Box)
    requires DistinctHosts(fleet) && exists b :: b in fleet && HasRoom(b)
    ensures best in fleet && HasRoom(best)
    ensures forall b :: b in fleet && HasRoom(b) && b != best ==>
      b.concurrency < best.concurrency || (b.concurrency == best.concurrency && Less(best.host, b.host))
    ensures SomeoneClaims(fleet, jobs) <==> forall r :: r in fleet && r.recent && Load(jobs, r.host) < r.concurrency ==>
      r.concurrency <= best.concurrency && (r.concurrency == best.concurrency ==> !Less(r.host, best.host))
    ensures SomeoneClaims(fleet, jobs) <==> forall r :: r in fleet && Blocks(jobs, r) ==>
      r.concurrency <= best.concurrency && (r.concurrency == best.concurrency ==> !Less(r.host, best.host))
  {
    best := TopWhere(fleet, b => HasRoom(b));
    assert forall b :: b in fleet && HasRoom(b) && b != best ==> Above(best, b);
    if r :| r in fleet && Free(jobs, r) && Above(r, best) {
      BlockedFleet(fleet, jobs, best, r);
      if HasRoom(r) {
        TopIsNotBelow(best, r);
      }
    } else {
      assert MayClaim(fleet, jobs, best);
    }
  }

  /** A recent box that has given its last slot to a model-backed inline job. */
  predicate Saturated(jobs: seq<GpuJob>, b: Box) {
    b.recent && b.inline.WithModel? && Load(jobs, b.host) == b.concurrency - 1
  }

  /** While rows and counters are in step, that is the whole story: the pool starves exactly when such a box
      ranks above every box with room. */
  lemma {:induction false} OnlyModelJobsStarve(fleet: seq<Box>, jobs: seq<GpuJob>) returns (best: Box)
    requires DistinctHosts(fleet) && exists b :: b in fleet && HasRoom(b)
    requires forall b :: b in fleet ==> InStep(jobs, b)
    ensures best in fleet && HasRoom(best)
    ensures forall b :: b in fleet && HasRoom(b) && b != best ==>
      b.concurrency < best.concurrency || (b.concurrency == best.concurrency && Less(best.host, b.host))
    ensures SomeoneClaims(fleet, jobs) <==> forall r :: r in fleet && Saturated(jobs, r) ==>
      r.concurrency <= best.concurrency && (r.concurrency == best.concurrency ==> !Less(r.host, best.host))
  {
    best := WhenThePoolStarves(fleet, jobs);
    forall r | r in fleet
      ensures Blocks(jobs, r) <==> Saturated(jobs, r)
    {
      WhatBlocks(jobs, r);
    }
  }

  lemma {:induction false} TopIsNotBelow(best: Box, r: Box)
    requires Above(r, best)
    ensures r != best && !Above(best, r)
  {
    NotAboveItself(best);
    if Above(best, r) {
      AboveTransitive(r, best, r);
      NotAboveItself(r);
    }
  }

  lemma {:induction false} BlockedFleet(fleet: seq<Box>, jobs: seq<GpuJob>, best: Box, r: Box)
    requires r in fleet && Free(jobs, r) && Above(r, best)
    requires forall b :: b in fleet && HasRoom(b) && b != best ==> Above(best, b)
    ensures !SomeoneClaims(fleet, jobs)
  {
    forall b | b in fleet && HasRoom(b)
      ensures !MayClaim(fleet, jobs, b)
    {
      if b != best {
        AboveTransitive(r, best, b);
      }
      assert RanksAbove(r, b.host, b.concurrency);
    }
  }

  /** With no model-backed inline job in the fleet the pool never starves. */
  lemma {:induction false} WithoutModelJobsNeverStarves(fleet: seq<Box>, jobs: seq<GpuJob>)
    requires DistinctHosts(fleet) && exists b :: b in fleet && HasRoom(b)
    requires forall b :: b in fleet ==> InStep(jobs, b) && !b.inline.WithModel?
    ensures SomeoneClaims(fleet, jobs)
  {
    var best := OnlyModelJobsStarve(fleet, jobs);
  }

  /** It does starve: one diffusion on the top-ranked of two single-slot boxes keeps the idle one waiting. */
  lemma {:induction false} DiffusionStarvesThePool()
    ensures var a, b := Box("a", 1, true, WithModel, 0), Box("b", 1, true, Idle, 0);
      var jobs := [GpuJob(true, Some("sdxl"), Some("a"))];
      && InStep(jobs, a) && InStep(jobs, b) && HasRoom(b) && !HasRoom(a)
      && !MayClaim([a, b], jobs, b) && !SomeoneClaims([a, b], jobs)
  {
    var a, b := Box("a", 1, true, WithModel, 0), Box("b", 1, true, Idle, 0);
    var jobs := [GpuJob(true, Some("sdxl"), Some("a"))];
    assert HeldBy(jobs, "a") == {} && HeldBy(jobs, "b") == {};
    assert Less("a", "b");
    assert a in [a, b] && RanksAbove(a, b.host, b.concurrency) && Free(jobs, a);
  }

  // ----------------------------------------------------------- a whole filling

  /** A box, recent or stale, that passes the gate takes one more job. */
  predicate Claims(fleet: seq<Box>, jobs: seq<GpuJob>, b: Box) {
    b in fleet && MayClaim(fleet, jobs, b)
  }

  function Taken(b: Box): GpuJob {
    GpuJob(true, None, Some(b.host))
  }

  /** `order` is a run of gate-respecting claims with no finish in between. */
  predicate Filling(fleet: seq<Box>, jobs: seq<GpuJob>, order: seq<Box>)
    decreases |order|
  {
    order == [] || (Claims(fleet, jobs, order[0]) && Filling(fleet, jobs + [Taken(order[0])], order[1..]))
  }

  function FilledBy(jobs: seq<GpuJob>, order: seq<Box>): seq<GpuJob>
    decreases |order|
  {
    if order == [] then jobs else FilledBy(jobs + [Taken(order[0])], order[1..])
  }

  /** A box in use means that every recent box that advertises more, or the same under an earlier label, is
      full. */
  predicate Packed(fleet: seq<Box>, jobs: seq<GpuJob>) {
    forall a, b :: a in fleet && b in fleet && a.recent && Load(jobs, b.host) > 0 ==>
      a.concurrency > b.concurrency || (a.concurrency == b.concurrency && Less(a.host, b.host)) ==>
        Load(jobs, a.host) >= a.concurrency
  }

  lemma {:induction false} LoadAfter(jobs: seq<GpuJob>, b: Box, host: string)
    ensures Load(jobs + [Taken(b)], host) == Load(jobs, host) + if host == b.host then 1 else 0
  {
    assert HeldBy(jobs + [Taken(b)], host) == HeldBy(jobs, host) + if host == b.host then {|jobs|} else {};
  }

  lemma {:induction false} ClaimKeepsPacked(fleet: seq<Box>, jobs: seq<GpuJob>, b: Box)
    requires Packed(fleet, jobs) && Claims(fleet, jobs, b) && DistinctHosts(fleet)
    ensures Packed(fleet, jobs + [Taken(b)])
  {
    var after := jobs + [Taken(b)];
    forall x, y | x in fleet && y in fleet && x.recent && Load(after, y.host) > 0 && Above(x, y)
      ensures Load(after, x.host) >= x.concurrency
    {
      LoadAfter(jobs, b, x.host);
      LoadAfter(jobs, b, y.host);
      if y == b {
        assert !Free(jobs, x);
      } else {
        SameHostSameBox(fleet, y, b);
      }
    }
  }

  /** However many jobs are claimed through the gate, they pack the fleet from the top: no box holds one
      while the gate counts a recent higher-ranked box as free. */
  lemma {:induction false} FillingPacks(fleet: seq<Box>, jobs: seq<GpuJob>, order: seq<Box>)
    requires DistinctHosts(fleet) && Packed(fleet, jobs) && Filling(fleet, jobs, order)
    ensures Packed(fleet, FilledBy(jobs, order))
    decreases |order|
  {
    if order != [] {
      ClaimKeepsPacked(fleet, jobs, order[0]);
      FillingPacks(fleet, jobs + [Taken(order[0])], order[1..]);
    }
  }
}
