/** The two claim lanes of a GPU worker and the one slot budget they share. */
module GpuSlots {
  import opened Options

  // ------------------------------------------------------------------- lanes

  datatype GpuRow = GpuRow(model: Option<string>, moduleName: string)

  predicate Capable(row: GpuRow, known: set<string>) {
    known == {} || row.model.None? || row.model.value in known
  }

  /** The rows a claim with `require_model` set accepts; with no pool list, every no-model row is the pool's. */
  predicate InlineLane(row: GpuRow, known: set<string>, pool: set<string>) {
    && Capable(row, known)
    && (row.model.Some? || (pool != {} && row.moduleName !in pool))
  }

  predicate PoolLane(row: GpuRow, known: set<string>, pool: set<string>) {
    && Capable(row, known)
    && row.model.None? && (pool != {} ==> row.moduleName in pool)
  }

  /** What a machine knows about itself: its memory if the probe answered, the registered models, and those
      that fit its memory. */
  datatype Machine = Machine(vram: Option<int>, known: set<string>, fitting: set<string>)

  /** Memory is known, models are registered and none fits: the inline lane gives up before it claims. */
  predicate TooSmall(m: Machine) {
    m.known != {} && m.vram.Some? && m.fitting == {}
  }

  predicate InlineClaims(row: GpuRow, m: Machine, pool: set<string>) {
    !TooSmall(m) && InlineLane(row, m.fitting, pool)
  }

  predicate PoolClaims(row: GpuRow, m: Machine, pool: set<string>) {
    PoolLane(row, m.known, pool)
  }

  /** The two lanes of a machine never accept the same row. A no-model row is accepted by one of them unless
      the machine is too small for every model and the row's module is not in the pool list; a row with a
      model is accepted, by the inline lane, exactly when the machine is not too small and serves it. */
  lemma {:induction false} LanesPartition(row: GpuRow, m: Machine, pool: set<string>)
    ensures !(InlineClaims(row, m, pool) && PoolClaims(row, m, pool))
    ensures row.model.None? ==>
      && (PoolClaims(row, m, pool) <==> pool == {} || row.moduleName in pool)
      && (InlineClaims(row, m, pool) || PoolClaims(row, m, pool) <==>
          !(m.known != {} && m.vram.Some? && m.fitting == {} && pool != {} && row.moduleName !in pool))
    ensures row.model.Some? ==>
      !PoolClaims(row, m, pool) &&
      (InlineClaims(row, m, pool) <==>
       row.model.value in m.fitting || (m.fitting == {} && (m.known == {} || m.vram.None?)))
  {
  }

  /** The exception is real: one large registered model, a small card, and an eraser outside the pool list. */
  lemma {:induction false} TooSmallForAnEraser()
    ensures var m := Machine(Some(8000), {"wan"}, {});
      var eraser := GpuRow(None, "erase");
      TooSmall(m) && !InlineClaims(eraser, m, {"caption"}) && !PoolClaims(eraser, m, {"caption"})
  {
    var m := Machine(Some(8000), {"wan"}, {});
    assert "wan" in m.known && "caption" in {"caption"};
    LanesPartition(GpuRow(None, "erase"), m, {"caption"});
  }

  // ------------------------------------------------------------------- slots

  /** `inflight` and `inlineRunning` are the worker's own counters. `held` says that the feeder holds a
      reservation it has not yet handed to the pool; `jobs` are the pool jobs not yet released. */
  datatype Slots = Slots(inflight: int, inlineRunning: bool, held: bool, jobs: set<int>)

  /** One lock-protected action of one of the three kinds of thread. `par` is the parallelism it read. */
  datatype Step =
    | InlineAdmit(par: int)
    | InlineDone
    | PoolReserve(par: int)
    | PoolGiveBack
    | PoolSubmit(job: int)
    | PoolFinish(job: int)

  /** The pool's ceiling: the parallelism, less the slot of a running inline job. */
  function Budget(inlineRunning: bool, par: int): int {
    var b := par - (if inlineRunning then 1 else 0);
    if b < 0 then 0 else b
  }

  /** What the order inside each thread allows: the inline lane and the feeder are serial, a job finishes
      after it was submitted, and a parallelism read is at least one. */
  predicate Enabled(s: Slots, step: Step) {
    match step
    case InlineAdmit(par) => !s.inlineRunning && par >= 1
    case InlineDone => s.inlineRunning
    case PoolReserve(par) => !s.held && par >= 1
    case PoolGiveBack => s.held
    case PoolSubmit(job) => s.held && job !in s.jobs
    case PoolFinish(job) => job in s.jobs
  }

  function Take(s: Slots, step: Step): Slots {
    match step
    case InlineAdmit(par) => if s.inflight >= par then s else s.(inlineRunning := true)
    case InlineDone => s.(inlineRunning := false)
    case PoolReserve(par) =>
      if s.inflight >= Budget(s.inlineRunning, par) then s else s.(inflight := s.inflight + 1, held := true)
    case PoolGiveBack => s.(inflight := s.inflight - 1, held := false)
    case PoolSubmit(job) => s.(held := false, jobs := s.jobs + {job})
    case PoolFinish(job) => s.(inflight := s.inflight - 1, jobs := s.jobs - {job})
  }

  const Idle := Slots(0, false, false, {})

  function Run(steps: seq<Step>): Slots {
    if steps == [] then Idle else Take(Run(steps[..|steps| - 1]), steps[|steps| - 1])
  }

  predicate Possible(steps: seq<Step>) {
    steps == [] || (Possible(steps[..|steps| - 1]) && Enabled(Run(steps[..|steps| - 1]), steps[|steps| - 1]))
  }

  /** Node-jobs the machine is committed to. */
  function Total(s: Slots): int {
    s.inflight + if s.inlineRunning then 1 else 0
  }

  /** The reservations that really are outstanding. */
  function Outstanding(s: Slots): nat {
    |s.jobs| + if s.held then 1 else 0
  }

  /** The highest parallelism any admission has read. */
  function HighestPar(steps: seq<Step>): int {
    if steps == [] then 0 else
      var p, step := HighestPar(steps[..|steps| - 1]), steps[|steps| - 1];
      if (step.InlineAdmit? || step.PoolReserve?) && step.par > p then step.par else p
  }

  /** One more job is admitted exactly when the inline job and the pool jobs together are below the
      parallelism read. */
  lemma {:induction false} AdmissionRespectsPar(s: Slots, step: Step)
    requires (step.InlineAdmit? || step.PoolReserve?) && Enabled(s, step) && s.inflight >= 0
    ensures Take(s, step) != s <==> s.inflight + (if s.inlineRunning then 1 else 0) < step.par
    ensures Take(s, step) != s ==> Total(Take(s, step)) <= step.par && Total(Take(s, step)) == Total(s) + 1
  {
  }

  /** Over every interleaving the in-flight counter equals the outstanding reservations, and the machine
      never commits to more node-jobs than the highest parallelism it has read. */
  lemma {:induction false} SlotsAreSound(steps: seq<Step>)
    requires Possible(steps)
    ensures Run(steps).inflight == Outstanding(Run(steps))
    ensures Total(Run(steps)) <= HighestPar(steps)
  {
    if steps != [] {
      var front, step := steps[..|steps| - 1], steps[|steps| - 1];
      SlotsAreSound(front);
      var s := Run(front);
      match step
      case InlineAdmit(_) => AdmissionRespectsPar(s, step);
      case PoolReserve(_) => AdmissionRespectsPar(s, step);
      case PoolSubmit(job) => assert |s.jobs + {job}| == |s.jobs| + 1;
      case PoolFinish(job) =>
        assert s.jobs == (s.jobs - {job}) + {job};
      case _ =>
    }
  }

  /** With a fixed parallelism the machine never runs more than that many node-jobs. */
  lemma {:induction false} FixedParIsACap(steps: seq<Step>, par: int)
    requires Possible(steps) && par >= 1
    requires forall i :: 0 <= i < |steps| && (steps[i].InlineAdmit? || steps[i].PoolReserve?) ==> steps[i].par == par
    ensures HighestPar(steps) <= par && Total(Run(steps)) <= par
  {
    SlotsAreSound(steps);
    if steps != [] {
      FixedParIsACap(steps[..|steps| - 1], par);
    }
  }

  /** No slot leaks: once the feeder holds nothing and every pool job has finished, the counter is back at
      zero, so both lanes can be admitted again. */
  lemma {:induction false} NoSlotLeaks(steps: seq<Step>, par: int)
    requires Possible(steps) && par >= 1
    requires var s := Run(steps); !s.held && s.jobs == {} && !s.inlineRunning
    ensures Take(Run(steps), InlineAdmit(par)).inlineRunning && Take(Run(steps), PoolReserve(par)).held
  {
    SlotsAreSound(steps);
  }

  // ---------------------------------------------------------------- in place

  /** The worker's two shared fields, each method one critical section. */
  class Worker {
    var poolInflight: int
    var inlineRunning: bool

    constructor ()
      ensures poolInflight == 0 && !inlineRunning
    {
      poolInflight, inlineRunning := 0, false;
    }

    method PoolBudget(par: int) returns (b: int)
      ensures b == Budget(inlineRunning, par)
    {
      b := par - if inlineRunning then 1 else 0;
      if b < 0 {
        b := 0;
      }
    }

    method AdmitInline(par: int) returns (admitted: bool)
      modifies this`inlineRunning
      ensures admitted <==> poolInflight < par
      ensures inlineRunning == (old(inlineRunning) || admitted)
      ensures forall held, jobs ::
        Slots(poolInflight, inlineRunning, held, jobs) ==
        Take(Slots(poolInflight, old(inlineRunning), held, jobs), InlineAdmit(par))
    {
      admitted := poolInflight < par;
      if admitted {
        inlineRunning := true;
      }
    }

    method ReservePool(par: int) returns (reserved: bool)
      modifies this`poolInflight
      ensures old(poolInflight) >= 0 ==>
        (reserved <==> old(poolInflight) + (if inlineRunning then 1 else 0) < par)
      ensures poolInflight == old(poolInflight) + if reserved then 1 else 0
      ensures forall jobs ::
        Slots(poolInflight, inlineRunning, reserved, jobs) ==
        Take(Slots(old(poolInflight), inlineRunning, false, jobs), PoolReserve(par))
    {
      var budget := PoolBudget(par);
      reserved := poolInflight < budget;
      if reserved {
        poolInflight := poolInflight + 1;
      }
    }

    method ReleasePool()
      modifies this`poolInflight
      ensures poolInflight == old(poolInflight) - 1
      ensures forall held, jobs, job ::
        Slots(poolInflight, inlineRunning, held, jobs - {job}) ==
        Take(Slots(old(poolInflight), inlineRunning, held, jobs), PoolFinish(job))
    {
      poolInflight := poolInflight - 1;
    }
  }
}
