/** When a script keeps the indexes in agreement with the job hashes. */
module RedisAgreement {
  import opened Options
  import opened MemberKeys
  import opened SortedSet
  import opened RedisBackend

  type Jobs = map<string, Job>

  // ---------------------------------------------------------------- counters

  function One(b: bool): nat {
    if b then 1 else 0
  }

  lemma {:induction false} CardinalityWithout(x: set<string>, id: string)
    ensures |x| == |x - {id}| + One(id in x)
  {
    if id in x {
      assert x == (x - {id}) + {id};
    } else {
      assert x == x - {id};
    }
  }

  lemma {:induction false} SameElsewhere(jobs: Jobs, id: string, job: Job, q: string, st: State)
    ensures InState(jobs[id := job], q, st) - {id} == InState(jobs, q, st) - {id}
  {
    forall x | x != id
      ensures x in InState(jobs[id := job], q, st) <==> x in InState(jobs, q, st)
    {
      assert Counted(jobs, x, q, st) <==> Counted(jobs[id := job], x, q, st);
    }
  }

  lemma {:induction false} CountAfterSet(jobs: Jobs, id: string, job: Job, q: string, st: State)
    ensures |InState(jobs[id := job], q, st)| ==
      |InState(jobs, q, st)| - One(Counted(jobs, id, q, st)) + One(job.queue == q && job.status == st)
  {
    CardinalityWithout(InState(jobs, q, st), id);
    CardinalityWithout(InState(jobs[id := job], q, st), id);
    SameElsewhere(jobs, id, job, q, st);
    assert Counted(jobs[id := job], id, q, st) <==> job.queue == q && job.status == st;
  }

  /** A row that changes status within its queue moves one unit between two counters. */
  lemma {:induction false} MoveCounted(jobs: Jobs, c: Counters, id: string, job: Job)
    requires CountersAgree(jobs, c) && id in jobs && job.queue == jobs[id].queue
    ensures CountersAgree(jobs[id := job], Move(c, job.queue, jobs[id].status, job.status))
  {
    forall q, st
      ensures Count(Move(c, job.queue, jobs[id].status, job.status), q, st) == |InState(jobs[id := job], q, st)|
    {
      CountAfterSet(jobs, id, job, q, st);
    }
  }

  lemma {:induction false} NewCounted(jobs: Jobs, c: Counters, id: string, job: Job)
    requires CountersAgree(jobs, c) && id !in jobs
    ensures CountersAgree(jobs[id := job], Bump(c, job.queue, job.status, 1))
  {
    forall q, st
      ensures Count(Bump(c, job.queue, job.status, 1), q, st) == |InState(jobs[id := job], q, st)|
    {
      CountAfterSet(jobs, id, job, q, st);
    }
  }

  lemma {:induction false} SameCounted(jobs: Jobs, c: Counters, id: string, job: Job)
    requires CountersAgree(jobs, c) && id in jobs && job.queue == jobs[id].queue && job.status == jobs[id].status
    ensures CountersAgree(jobs[id := job], c)
  {
    forall q, st
      ensures Count(c, q, st) == |InState(jobs[id := job], q, st)|
    {
      CountAfterSet(jobs, id, job, q, st);
    }
  }

  // -------------------------------------------------------------- queue sets

  /** A job that was not queued joins its queue under the next number. */
  lemma {:induction false} JoinWaiting(jobs: Jobs, waiting: Index<Member>, n: nat, id: string, job: Job)
    requires WaitingAgrees(jobs, waiting, n) && (id in jobs ==> !jobs[id].status.Queued?) && job.status.Queued?
    ensures WaitingAgrees(jobs[id := job], Add(waiting, job.queue, Member(n + 1, id), -job.priority), n + 1)
  {
    var m := Member(n + 1, id);
    var jobs', waiting' := jobs[id := job], Add(waiting, job.queue, m, -job.priority);
    forall q, x | In(waiting', q, x)
      ensures StandsFor(jobs', n + 1, q, x, waiting'[q][x])
      ensures x != m ==> In(waiting, q, x)
    {
      assert x != m ==> In(waiting, q, x);
    }
    forall x | x in jobs' && jobs'[x].status.Queued?
      ensures InQueue(jobs', waiting', x)
    {
      if x == id {
        assert m in At(waiting', job.queue);
      } else {
        StaysQueued(jobs, waiting, x, jobs', waiting');
      }
    }
  }

  lemma {:induction false} StaysQueued(jobs: Jobs, waiting: Index<Member>, x: string, jobs': Jobs,
                                       waiting': Index<Member>)
    requires x in jobs && x in jobs' && jobs[x] == jobs'[x] && InQueue(jobs, waiting, x)
    requires forall m :: m in At(waiting, jobs[x].queue) && m.id == x ==> m in At(waiting', jobs[x].queue)
    ensures InQueue(jobs', waiting', x)
  {
    var m :| m in At(waiting, jobs[x].queue) && m.id == x;
    assert m in At(waiting', jobs'[x].queue);
  }

  /** A popped member's job leaves the queued status. */
  lemma {:induction false} LeaveWaiting(jobs: Jobs, waiting: Index<Member>, n: nat, q: string, m: Member, job: Job)
    requires WaitingAgrees(jobs, waiting, n) && In(waiting, q, m) && !job.status.Queued?
    ensures WaitingAgrees(jobs[m.id := job], Drop(waiting, q, m), n)
  {
    var id := m.id;
    var jobs', waiting' := jobs[id := job], Drop(waiting, q, m);
    forall p, x | In(waiting', p, x)
      ensures In(waiting, p, x) && StandsFor(jobs', n, p, x, waiting'[p][x])
    {
      assert In(waiting, p, x);
      assert StandsFor(jobs, n, p, x, waiting[p][x]);
    }
    forall x | x in jobs' && jobs'[x].status.Queued?
      ensures InQueue(jobs', waiting', x)
    {
      StaysQueued(jobs, waiting, x, jobs', waiting');
    }
  }

  lemma {:induction false} KeepWaiting(jobs: Jobs, waiting: Index<Member>, n: nat, id: string, job: Job)
    requires WaitingAgrees(jobs, waiting, n) && id in jobs && !jobs[id].status.Queued? && !job.status.Queued?
    ensures WaitingAgrees(jobs[id := job], waiting, n)
  {
    var jobs' := jobs[id := job];
    forall q, m | In(waiting, q, m)
      ensures StandsFor(jobs', n, q, m, waiting[q][m])
    {
      assert StandsFor(jobs, n, q, m, waiting[q][m]);
    }
    forall x | x in jobs' && jobs'[x].status.Queued?
      ensures InQueue(jobs', waiting, x)
    {
      StaysQueued(jobs, waiting, x, jobs', waiting);
    }
  }

  // ------------------------------------------------------------ running sets

  lemma {:induction false} JoinRunning(jobs: Jobs, running: Index<string>, id: string, job: Job)
    requires RunningAgrees(jobs, running) && (id in jobs ==> jobs[id].queue == job.queue)
    requires job.status.Running? && job.lease.Some?
    ensures RunningAgrees(jobs[id := job], Add(running, job.queue, id, job.lease.value))
  {
    var jobs', running' := jobs[id := job], Add(running, job.queue, id, job.lease.value);
    forall q, x | In(running', q, x)
      ensures RunsAt(jobs', q, x, running'[q][x])
    {
      assert x != id || q != job.queue ==> In(running, q, x);
    }
  }

  lemma {:induction false} LeaveRunning(jobs: Jobs, running: Index<string>, id: string, job: Job)
    requires RunningAgrees(jobs, running) && id in jobs && jobs[id].queue == job.queue && !job.status.Running?
    ensures RunningAgrees(jobs[id := job], Drop(running, job.queue, id))
  {
    var jobs', running' := jobs[id := job], Drop(running, job.queue, id);
    forall q, x | In(running', q, x)
      ensures RunsAt(jobs', q, x, running'[q][x])
    {
      assert In(running, q, x);
      assert RunsAt(jobs, q, x, running[q][x]);
    }
  }

  lemma {:induction false} KeepRunning(jobs: Jobs, running: Index<string>, id: string, job: Job)
    requires RunningAgrees(jobs, running) && id !in jobs && !job.status.Running?
    ensures RunningAgrees(jobs[id := job], running)
  {
    forall q, x | In(running, q, x)
      ensures RunsAt(jobs[id := job], q, x, running[q][x])
    {
      assert RunsAt(jobs, q, x, running[q][x]);
    }
  }

  // ----------------------------------------------------------------- scripts

  lemma {:induction false} EnqueueKeeps(s: Store, id: string, q: string, payload: string, priority: int)
    requires Agree(s) && id !in s.jobs
    ensures Agree(Enqueue(s, id, q, payload, priority))
  {
    var job := Job(q, Queued, payload, priority, 0, "", None, "", "");
    JoinWaiting(s.jobs, s.waiting, s.seqno, id, job);
    KeepRunning(s.jobs, s.running, id, job);
    NewCounted(s.jobs, s.counters, id, job);
    var s' := Enqueue(s, id, q, payload, priority);
    assert s'.jobs == s.jobs[id := job];
    assert s'.waiting == Add(s.waiting, q, Member(s.seqno + 1, id), -job.priority);
  }

  /** The popped member names a queued job of that queue. */
  lemma {:induction false} HeadIsQueued(s: Store, q: string)
    requires Agree(s) && At(s.waiting, q) != map[]
    ensures var m := Head(s, q); In(s.waiting, q, m) && StandsFor(s.jobs, s.seqno, q, m, s.waiting[q][m])
  {
    assert In(s.waiting, q, Head(s, q));
  }

  lemma {:induction false} ClaimKeeps(s: Store, q: string, worker: string, leaseAt: int)
    requires Agree(s)
    ensures Agree(Claim(s, q, worker, leaseAt))
  {
    if At(s.waiting, q) != map[] {
      HeadIsQueued(s, q);
      var m := Head(s, q);
      var id := m.id;
      var job := Started(s.jobs[id], worker, leaseAt);
      LeaveWaiting(s.jobs, s.waiting, s.seqno, q, m, job);
      JoinRunning(s.jobs, s.running, id, job);
      MoveCounted(s.jobs, s.counters, id, job);
    }
  }

  lemma {:induction false} RenewKeeps(s: Store, id: string, worker: string, leaseAt: int)
    requires Agree(s)
    ensures Agree(Renew(s, id, worker, leaseAt))
  {
    if Owned(s, id, worker) {
      var job := s.jobs[id].(lease := Some(leaseAt));
      KeepWaiting(s.jobs, s.waiting, s.seqno, id, job);
      JoinRunning(s.jobs, s.running, id, job);
      SameCounted(s.jobs, s.counters, id, job);
    }
  }

  lemma {:induction false} FinishKeeps(s: Store, id: string, st: State, result: string, error: string,
                                       ev: Option<(string, string)>)
    requires Agree(s) && Finished(st) && (id in s.jobs ==> !s.jobs[id].status.Queued?)
    ensures Agree(Finish(s, id, st, result, error, ev))
  {
    if Open(s, id) {
      var job := s.jobs[id].(status := st, result := result, error := error);
      KeepWaiting(s.jobs, s.waiting, s.seqno, id, job);
      LeaveRunning(s.jobs, s.running, id, job);
      MoveCounted(s.jobs, s.counters, id, job);
    }
  }

  lemma {:induction false} PutBackJoins(s: Store, id: string, q: string)
    requires WaitingAgrees(s.jobs, s.waiting, s.seqno)
    requires Counted(s.jobs, id, q, Running)
    ensures var s' := PutBack(s, id, q); WaitingAgrees(s'.jobs, s'.waiting, s'.seqno)
  {
    var job, s' := Released(s.jobs[id]), PutBack(s, id, q);
    JoinWaiting(s.jobs, s.waiting, s.seqno, id, job);
    assert s'.jobs == s.jobs[id := job];
    assert s'.waiting == Add(s.waiting, q, Member(s.seqno + 1, id), -job.priority);
  }

  lemma {:induction false} PutBackKeeps(s: Store, id: string, q: string)
    requires Agree(s) && Counted(s.jobs, id, q, Running)
    ensures Agree(PutBack(s, id, q))
  {
    var job := Released(s.jobs[id]);
    PutBackJoins(s, id, q);
    LeaveRunning(s.jobs, s.running, id, job);
    MoveCounted(s.jobs, s.counters, id, job);
  }

  /** The jobs after every job of `ids` was released. */
  function ReleasedAll(jobs: Jobs, ids: seq<string>): Jobs {
    map id | id in jobs :: if id in ids then Released(jobs[id]) else jobs[id]
  }

  predicate AllRunning(s: Store, q: string, ids: seq<string>) {
    && (forall id :: id in ids ==> Counted(s.jobs, id, q, Running))
    && (forall i, j :: 0 <= i < j < |ids| ==> ids[i] != ids[j])
  }

  /** The loop's one-by-one updates amount to one simultaneous release of every listed row. */
  lemma {:induction false} ReclaimLoop(s: Store, q: string, ids: seq<string>)
    requires AllRunning(s, q, ids)
    ensures ReclaimAll(s, q, ids).jobs == ReleasedAll(s.jobs, ids)
    ensures ReclaimAll(s, q, ids).events == s.events
    ensures ReclaimedIds(s, q, ids) == ids
  {
    if ids != [] {
      var front, id := ids[..|ids| - 1], ids[|ids| - 1];
      assert ids == front + [id] && id !in front;
      ReclaimLoop(s, q, front);
      assert id in ids && Counted(s.jobs, id, q, Running);
      ReleasedOneMore(s.jobs, front, id);
    }
  }

  lemma {:induction false} ReleasedOneMore(jobs: Jobs, front: seq<string>, id: string)
    requires id in jobs && id !in front
    ensures ReleasedAll(jobs, front)[id := Released(jobs[id])] == ReleasedAll(jobs, front + [id])
  {
  }

  lemma {:induction false} ReclaimLoopKeeps(s: Store, q: string, ids: seq<string>)
    requires Agree(s) && AllRunning(s, q, ids)
    ensures Agree(ReclaimAll(s, q, ids))
  {
    if ids != [] {
      var front, id := ids[..|ids| - 1], ids[|ids| - 1];
      assert ids == front + [id] && id !in front;
      ReclaimLoop(s, q, front);
      ReclaimLoopKeeps(s, q, front);
      assert id in ids && Counted(s.jobs, id, q, Running);
      PutBackKeeps(ReclaimAll(s, q, front), id, q);
    }
  }

  lemma {:induction false} ExpiredRun(s: Store, q: string, now: int)
    requires Agree(s)
    ensures forall id :: id in Expired(s, q, now) <==> Lapsed(s.jobs, id, q, now)
  {
    forall id
      ensures id in UpTo(At(s.running, q), now) <==> Lapsed(s.jobs, id, q, now)
    {
      if id in At(s.running, q) {
        assert In(s.running, q, id);
        assert RunsAt(s.jobs, q, id, s.running[q][id]);
      }
    }
  }

  /** A running job of `q` whose lease ended at or before `now`. */
  predicate Lapsed(jobs: Jobs, id: string, q: string, now: int) {
    id in jobs && jobs[id].queue == q && jobs[id].status.Running? && jobs[id].lease.Some? && jobs[id].lease.value <= now
  }

  lemma {:induction false} ReclaimKeeps(s: Store, q: string, now: int)
    requires Agree(s)
    ensures Agree(Reclaim(s, q, now))
  {
    ExpiredRun(s, q, now);
    ReclaimLoopKeeps(s, q, Expired(s, q, now));
  }

  // --------------------------------------------------- exactly when it holds

  lemma {:induction false} LegalKeeps(s: Store, op: Op)
    requires Agree(s) && Legal(s, op)
    ensures Agree(Apply(s, op))
  {
    match op
    case OpEnqueue(id, q, payload, priority) => EnqueueKeeps(s, id, q, payload, priority);
    case OpClaim(q, worker, leaseAt) => ClaimKeeps(s, q, worker, leaseAt);
    case OpRenew(id, worker, leaseAt) => RenewKeeps(s, id, worker, leaseAt);
    case OpComplete(id, result, ev) => FinishKeeps(s, id, Completed, result, "", ev);
    case OpFail(id, error, ev) => FinishKeeps(s, id, Failed, "", error, ev);
    case OpRequeue(id) => if Open(s, id) { PutBackKeeps(s, id, s.jobs[id].queue); }
    case OpReclaim(q, now) => ReclaimKeeps(s, q, now);
  }

  /** Two members for one job break the agreement. */
  lemma {:induction false} TwoMembersBreak(s: Store, q: string, a: Member, p: string, b: Member)
    requires In(s.waiting, q, a) && In(s.waiting, p, b) && a != b && a.id == b.id
    ensures !Agree(s)
  {
  }

  lemma {:induction false} QueuedMember(s: Store, id: string) returns (m: Member)
    requires Agree(s) && id in s.jobs && s.jobs[id].status.Queued?
    ensures In(s.waiting, s.jobs[id].queue, m) && m.id == id && m.number <= s.seqno
  {
    assert InQueue(s.jobs, s.waiting, id);
    m :| m in At(s.waiting, s.jobs[id].queue) && m.id == id;
    assert In(s.waiting, s.jobs[id].queue, m);
  }

  lemma {:induction false} EnqueueOfAKnownIdBreaks(s: Store, id: string, q: string, payload: string, priority: int)
    requires Agree(s) && id in s.jobs
    ensures !Agree(Enqueue(s, id, q, payload, priority))
  {
    var was, job := s.jobs[id], Job(q, Queued, payload, priority, 0, "", None, "", "");
    var s' := Enqueue(s, id, q, payload, priority);
    assert s'.jobs == s.jobs[id := job];
    if was.status.Queued? {
      var m := QueuedMember(s, id);
      TwoMembersBreak(s', was.queue, m, q, Member(s.seqno + 1, id));
    } else if was.status.Running? {
      assert In(s'.running, was.queue, id);
      assert !RunsAt(s'.jobs, was.queue, id, s'.running[was.queue][id]);
    } else {
      CountAfterSet(s.jobs, id, job, was.queue, was.status);
      assert Counted(s.jobs, id, was.queue, was.status);
      assert Count(s'.counters, was.queue, was.status) == Count(s.counters, was.queue, was.status);
    }
  }

  lemma {:induction false} FinishOfAQueuedRowBreaks(s: Store, id: string, st: State, result: string, error: string,
                                                    ev: Option<(string, string)>)
    requires Agree(s) && Finished(st) && id in s.jobs && s.jobs[id].status.Queued?
    ensures !Agree(Finish(s, id, st, result, error, ev))
  {
    var s', q := Finish(s, id, st, result, error, ev), s.jobs[id].queue;
    var m := QueuedMember(s, id);
    assert In(s'.waiting, q, m) && !StandsFor(s'.jobs, s'.seqno, q, m, s'.waiting[q][m]);
  }

  lemma {:induction false} RequeueOfAQueuedRowBreaks(s: Store, id: string)
    requires Agree(s) && id in s.jobs && s.jobs[id].status.Queued?
    ensures !Agree(Requeue(s, id))
  {
    var m := QueuedMember(s, id);
    var q := s.jobs[id].queue;
    TwoMembersBreak(Requeue(s, id), q, m, q, Member(s.seqno + 1, id));
  }

  /** From agreeing indexes a script leads to agreeing indexes if and only if the caller respected the
      rules: a fresh id, and no terminal or requeue script on a queued job. */
  lemma {:induction false} AgreementKeptExactly(s: Store, op: Op)
    requires Agree(s)
    ensures Agree(Apply(s, op)) <==> Legal(s, op)
  {
    if Legal(s, op) {
      LegalKeeps(s, op);
    } else {
      match op
      case OpEnqueue(id, q, payload, priority) => EnqueueOfAKnownIdBreaks(s, id, q, payload, priority);
      case OpComplete(id, result, ev) => FinishOfAQueuedRowBreaks(s, id, Completed, result, "", ev);
      case OpFail(id, error, ev) => FinishOfAQueuedRowBreaks(s, id, Failed, "", error, ev);
      case OpRequeue(id) => RequeueOfAQueuedRowBreaks(s, id);
    }
  }
}
