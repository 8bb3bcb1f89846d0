/** The ingest seam: ingest priorities ascend, backend priorities descend, and the seam negates them. On
    histories without a requeue it hands out the same jobs as the relational ingest table. */
module IngestSeam {
  import opened Options
  import opened MemberKeys
  import opened RedisBackend
  import opened RedisAgreement
  import opened StorageContract

  // ------------------------------------------------- the relational reference

  datatype IngestRow = IngestRow(queue: string, status: State, priority: int, created: nat)

  /** `clock` is the creation instant of the newest row; the store stamps rows in insertion order. */
  datatype IngestTable = IngestTable(clock: nat, rows: map<string, IngestRow>)

  datatype IngestOp =
    | Put(id: string, queue: string, payload: string, priority: int)
    | Take(queue: string, host: string, leaseAt: int)
    | Renewal(id: string, host: string, leaseAt: int)
    | Done(id: string, result: string)
    | Errored(id: string, error: string)

  predicate QueuedOn(t: IngestTable, q: string, id: string) {
    id in t.rows && t.rows[id].queue == q && t.rows[id].status.Queued?
  }

  /** First by priority ascending, then by creation ascending. */
  predicate IsNext(t: IngestTable, q: string, id: string) {
    && QueuedOn(t, q, id)
    && forall x :: x in t.rows && QueuedOn(t, q, x) && x != id ==>
         t.rows[id].priority < t.rows[x].priority ||
         (t.rows[id].priority == t.rows[x].priority && t.rows[id].created < t.rows[x].created)
  }

  ghost function Next(t: IngestTable, q: string): Option<string> {
    if exists id :: IsNext(t, q, id) then var id :| IsNext(t, q, id); Some(id) else None
  }

  function SetStatus(t: IngestTable, id: string, st: State): IngestTable {
    if id in t.rows && !Finished(t.rows[id].status) then t.(rows := t.rows[id := t.rows[id].(status := st)]) else t
  }

  ghost function Relational(t: IngestTable, op: IngestOp): IngestTable {
    match op
    case Put(id, q, _, priority) => IngestTable(t.clock + 1, t.rows[id := IngestRow(q, Queued, priority, t.clock + 1)])
    case Take(q, _, _) => if Next(t, q).Some? then SetStatus(t, Next(t, q).value, Running) else t
    case Renewal(_, _, _) => t
    case Done(id, _) => SetStatus(t, id, Completed)
    case Errored(id, _) => SetStatus(t, id, Failed)
  }

  /** What a claim returns. */
  ghost function Taken(t: IngestTable, q: string): Reply {
    if Next(t, q).Some? then Ids([Next(t, q).value]) else Nil
  }

  // ----------------------------------------------------------------- the seam

  function Seam(op: IngestOp): Op {
    match op
    case Put(id, q, payload, priority) => OpEnqueue(id, q, payload, -priority)
    case Take(q, host, leaseAt) => OpClaim(q, host, leaseAt)
    case Renewal(id, host, leaseAt) => OpRenew(id, host, leaseAt)
    case Done(id, result) => OpComplete(id, result, None)
    case Errored(id, error) => OpFail(id, error, None)
  }

  /** The priority shown to the ingest side. */
  function ShownPriority(job: Job): int {
    -job.priority
  }

  ghost function RelationalAll(ops: seq<IngestOp>): IngestTable {
    if ops == [] then IngestTable(0, map[]) else Relational(RelationalAll(ops[..|ops| - 1]), ops[|ops| - 1])
  }

  ghost function SeamAll(ops: seq<IngestOp>): Store {
    if ops == [] then Empty else Apply(SeamAll(ops[..|ops| - 1]), Seam(ops[|ops| - 1]))
  }

  ghost predicate LegalHistory(ops: seq<IngestOp>) {
    ops == [] ||
    (LegalHistory(ops[..|ops| - 1]) && Legal(SeamAll(ops[..|ops| - 1]), Seam(ops[|ops| - 1])))
  }

  // --------------------------------------------------------------- simulation

  predicate SameRow(job: Job, row: IngestRow) {
    row.queue == job.queue && row.status == job.status && row.priority == ShownPriority(job)
  }

  /** The two stores show the same rows, and waiting members carry the rows' creation order. */
  ghost predicate Mirrors(s: Store, t: IngestTable) {
    && t.clock == s.seqno
    && t.rows.Keys == s.jobs.Keys
    && (forall id :: id in s.jobs ==> SameRow(s.jobs[id], t.rows[id]))
    && (forall q, m :: In(s.waiting, q, m) ==> m.id in t.rows && t.rows[m.id].created == m.number)
  }

  ghost predicate Simulates(s: Store, t: IngestTable) {
    Agree(s) && Mirrors(s, t)
  }

  lemma {:induction false} NextUnique(t: IngestTable, q: string, id: string)
    requires IsNext(t, q, id)
    ensures Next(t, q) == Some(id)
  {
    var n := Next(t, q).value;
    assert IsNext(t, q, n);
  }

  lemma {:induction false} HeadIsNext(s: Store, t: IngestTable, q: string)
    requires Simulates(s, t) && s.seqno < Pow10(Width) && At(s.waiting, q) != map[]
    ensures Next(t, q) == Some(Head(s, q).id)
  {
    HeadIsQueued(s, q);
    var h := Head(s, q);
    forall x | x in t.rows && QueuedOn(t, q, x) && x != h.id
      ensures t.rows[h.id].priority < t.rows[x].priority ||
        (t.rows[h.id].priority == t.rows[x].priority && t.rows[h.id].created < t.rows[x].created)
    {
      assert SameRow(s.jobs[x], t.rows[x]) && SameRow(s.jobs[h.id], t.rows[h.id]);
      var m := QueuedMember(s, x);
      HeadIsFirstOfTopPriority(s, q, m);
    }
    assert IsNext(t, q, h.id);
    NextUnique(t, q, h.id);
  }

  lemma {:induction false} NothingNext(s: Store, t: IngestTable, q: string)
    requires Simulates(s, t) && At(s.waiting, q) == map[]
    ensures Next(t, q) == None
  {
    NothingWaiting(s, q);
    if id :| IsNext(t, q, id) {
      assert SameRow(s.jobs[id], t.rows[id]);
      assert Counted(s.jobs, id, q, Queued);
    }
  }

  /** Both sides hand out the same job. */
  lemma {:induction false} SameClaim(s: Store, t: IngestTable, q: string, host: string, leaseAt: int)
    requires Simulates(s, t) && s.seqno < Pow10(Width)
    ensures Answer(s, OpClaim(q, host, leaseAt)) == Taken(t, q)
  {
    if At(s.waiting, q) == map[] {
      NothingNext(s, t, q);
    } else {
      HeadIsNext(s, t, q);
    }
  }

  lemma {:induction false} PutMirrors(s: Store, t: IngestTable, id: string, q: string, payload: string, priority: int)
    requires Mirrors(s, t) && id !in s.jobs
    ensures Mirrors(Enqueue(s, id, q, payload, -priority), Relational(t, Put(id, q, payload, priority)))
  {
    var s', t' := Enqueue(s, id, q, payload, -priority), Relational(t, Put(id, q, payload, priority));
    forall p, m | In(s'.waiting, p, m)
      ensures m.id in t'.rows && t'.rows[m.id].created == m.number
    {
      assert m == Member(s.seqno + 1, id) || In(s.waiting, p, m);
    }
  }

  lemma {:induction false} TakeMirrors(s: Store, t: IngestTable, q: string, m: Member, host: string, leaseAt: int)
    requires Mirrors(s, t) && Counted(s.jobs, m.id, q, Queued)
    ensures Mirrors(TakeMember(s, q, m, host, leaseAt), SetStatus(t, m.id, Running))
  {
    var s' := TakeMember(s, q, m, host, leaseAt);
    assert SameRow(s.jobs[m.id], t.rows[m.id]);
    forall p, x | In(s'.waiting, p, x)
      ensures In(s.waiting, p, x)
    {
    }
  }

  lemma {:induction false} FinishMirrors(s: Store, t: IngestTable, id: string, st: State, result: string, error: string)
    requires Mirrors(s, t)
    ensures Mirrors(Finish(s, id, st, result, error, None), SetStatus(t, id, st))
  {
    if id in s.jobs {
      assert SameRow(s.jobs[id], t.rows[id]);
    }
    assert Finish(s, id, st, result, error, None).waiting == s.waiting;
  }

  lemma {:induction false} RenewMirrors(s: Store, t: IngestTable, id: string, host: string, leaseAt: int)
    requires Mirrors(s, t)
    ensures Mirrors(Renew(s, id, host, leaseAt), t)
  {
    assert Renew(s, id, host, leaseAt).waiting == s.waiting;
  }

  lemma {:induction false} ClaimMirrors(s: Store, t: IngestTable, q: string, host: string, leaseAt: int)
    requires Simulates(s, t) && s.seqno < Pow10(Width)
    ensures Mirrors(Claim(s, q, host, leaseAt), Relational(t, Take(q, host, leaseAt)))
  {
    if At(s.waiting, q) == map[] {
      NothingNext(s, t, q);
    } else {
      HeadIsQueued(s, q);
      HeadIsNext(s, t, q);
      TakeMirrors(s, t, q, Head(s, q), host, leaseAt);
    }
  }

  lemma {:induction false} FinishOrRenewMirrors(s: Store, t: IngestTable, op: IngestOp)
    requires Mirrors(s, t) && (op.Renewal? || op.Done? || op.Errored?)
    ensures Mirrors(Apply(s, Seam(op)), Relational(t, op))
  {
    match op
    case Renewal(id, host, leaseAt) => RenewMirrors(s, t, id, host, leaseAt);
    case Done(id, result) => FinishMirrors(s, t, id, Completed, result, "");
    case Errored(id, error) => FinishMirrors(s, t, id, Failed, "", error);
  }

  lemma {:induction false} OtherMirrors(s: Store, t: IngestTable, op: IngestOp)
    requires Mirrors(s, t) && !op.Take? && (op.Put? ==> op.id !in s.jobs)
    ensures Mirrors(Apply(s, Seam(op)), Relational(t, op))
  {
    if op.Put? {
      PutMirrors(s, t, op.id, op.queue, op.payload, op.priority);
    } else {
      FinishOrRenewMirrors(s, t, op);
    }
  }

  lemma {:induction false} StepSimulates(s: Store, t: IngestTable, op: IngestOp)
    requires Simulates(s, t) && s.seqno < Pow10(Width) && Legal(s, Seam(op))
    ensures Simulates(Apply(s, Seam(op)), Relational(t, op))
  {
    LegalKeeps(s, Seam(op));
    if op.Take? {
      ClaimMirrors(s, t, op.queue, op.host, op.leaseAt);
    } else {
      OtherMirrors(s, t, op);
    }
  }

  lemma {:induction false} ClockTicks(t: IngestTable, op: IngestOp)
    ensures Relational(t, op).clock <= t.clock + 1
  {
  }

  lemma {:induction false} HistorySimulates(ops: seq<IngestOp>)
    requires LegalHistory(ops) && |ops| < Pow10(Width)
    ensures Simulates(SeamAll(ops), RelationalAll(ops)) && RelationalAll(ops).clock <= |ops|
  {
    if ops == [] {
      EmptyAgrees();
    } else {
      var front, op := ops[..|ops| - 1], ops[|ops| - 1];
      HistorySimulates(front);
      ClockTicks(RelationalAll(front), op);
      StepSimulates(SeamAll(front), RelationalAll(front), op);
    }
  }

  /** After any requeue-free history a claim through the seam returns the job the relational table would
      have handed out, and shows it with the priority it was enqueued with. */
  lemma {:induction false} SeamClaimsLikeTheTable(ops: seq<IngestOp>, q: string, host: string, leaseAt: int)
    requires LegalHistory(ops) && |ops| < Pow10(Width)
    ensures Answer(SeamAll(ops), OpClaim(q, host, leaseAt)) == Taken(RelationalAll(ops), q)
    ensures forall id :: id in SeamAll(ops).jobs ==>
      id in RelationalAll(ops).rows && ShownPriority(SeamAll(ops).jobs[id]) == RelationalAll(ops).rows[id].priority
  {
    HistorySimulates(ops);
    SameClaim(SeamAll(ops), RelationalAll(ops), q, host, leaseAt);
  }
}
