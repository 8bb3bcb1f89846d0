/** The six scripts as they run: keys changed in place, each call tied to its script function and, from
    agreeing indexes, to the storage contract. */
module RedisServer {
  import opened Options
  import opened MemberKeys
  import opened SortedSet
  import opened RedisBackend
  import opened StorageContract

  lemma {:induction false} OrderedSplits(done: seq<string>, z: map<string, int>, id: string)
    requires IsLeast(z, Plain, id)
    ensures done + Ordered(z, Plain) == done + [id] + Ordered(z - {id}, Plain)
    ensures |z - {id}| < |z|
  {
    LeastUnique(z, Plain, id, Least(z, Plain));
    assert (z - {id}).Keys == z.Keys - {id};
    assert Ordered(z, Plain) == [id] + Ordered(z - {id}, Plain);
  }

  lemma {:induction false} ReclaimStep(s: Store, q: string, done: seq<string>, id: string)
    ensures ReclaimAll(s, q, done + [id]) == ReclaimOne(ReclaimAll(s, q, done), q, id)
    ensures var before := ReclaimAll(s, q, done).jobs;
      ReclaimedIds(s, q, done + [id]) ==
      ReclaimedIds(s, q, done) + if id in before && before[id].status.Running? then [id] else []
  {
    assert (done + [id])[..|done|] == done;
  }

  class Server {
    var seqno: nat
    var jobs: map<string, Job>
    var waiting: Index<Member>
    var running: Index<string>
    var names: set<string>
    var counters: Counters
    var events: seq<Event>

    function Snapshot(): Store
      reads this
    {
      Store(seqno, jobs, waiting, running, names, counters, events)
    }

    constructor ()
      ensures Snapshot() == Empty
    {
      seqno, jobs, waiting, running, names, counters, events := 0, map[], map[], map[], {}, map[], [];
    }

    method EnqueueJob(id: string, q: string, payload: string, priority: int)
      modifies this
      ensures Snapshot() == Enqueue(old(Snapshot()), id, q, payload, priority)
      ensures jobs == old(jobs)[id := Job(q, Queued, payload, priority, 0, "", None, "", "")] && events == old(events)
    {
      seqno := seqno + 1;
      jobs := jobs[id := Job(q, Queued, payload, priority, 0, "", None, "", "")];
      waiting := Add(waiting, q, Member(seqno, id), -priority);
      names := names + {q};
      counters := Bump(counters, q, Queued, 1);
    }

    method ClaimJob(q: string, worker: string, leaseAt: int) returns (id: Option<string>)
      modifies this
      ensures Snapshot() == Claim(old(Snapshot()), q, worker, leaseAt)
      ensures Answer(old(Snapshot()), OpClaim(q, worker, leaseAt)) == if id.Some? then Ids([id.value]) else Nil
      ensures old(Agree(Snapshot())) ==>
        ClaimContract(old(Truth(Snapshot())), q, worker, leaseAt, if id.Some? then Ids([id.value]) else Nil,
                      Truth(Snapshot()))
    {
      ghost var start := Snapshot();
      if Agree(start) {
        StepRefines(start, OpClaim(q, worker, leaseAt));
      }
      id := None;
      var z := At(waiting, q);
      if z == map[] {
        return;
      }
      assert IsLeast(z, Text, Head(Snapshot(), q));
      var m :| m in z && IsLeast(z, Text, m);
      LeastUnique(z, Text, m, Head(Snapshot(), q));
      waiting := Drop(waiting, q, m);
      jobs := jobs[m.id := Started(HashOf(Snapshot(), m.id), worker, leaseAt)];
      running := Add(running, q, m.id, leaseAt);
      counters := Bump(counters, q, Queued, -1);
      counters := Bump(counters, q, Running, 1);
      id := Some(m.id);
    }

    method RenewJob(id: string, worker: string, leaseAt: int) returns (renewed: bool)
      modifies this`jobs, this`running
      ensures Snapshot() == Renew(old(Snapshot()), id, worker, leaseAt)
      ensures RenewContract(old(Truth(Snapshot())), id, worker, leaseAt, if renewed then Ids([id]) else Nil,
                            Truth(Snapshot()))
    {
      renewed := false;
      if id in jobs && jobs[id].status.Running? && jobs[id].worker == worker {
        var q := jobs[id].queue;
        jobs := jobs[id := jobs[id].(lease := Some(leaseAt))];
        running := Add(running, q, id, leaseAt);
        renewed := true;
      }
    }

    method FinishJob(id: string, st: State, result: string, error: string, ev: Option<(string, string)>)
      returns (finished: bool)
      modifies this
      ensures Snapshot() == Finish(old(Snapshot()), id, st, result, error, ev)
      ensures FinishContract(old(Truth(Snapshot())), id, st, result, error, ev, if finished then Ids([id]) else Nil,
                             Truth(Snapshot()))
    {
      if id !in jobs || Finished(jobs[id].status) {
        return false;
      }
      var was, q := jobs[id].status, jobs[id].queue;
      jobs := jobs[id := jobs[id].(status := st, result := result, error := error)];
      running := Drop(running, q, id);
      counters := Bump(counters, q, was, -1);
      counters := Bump(counters, q, st, 1);
      if ev.Some? {
        events := events + [Event(id, q, ev.value.0, ev.value.1)];
      }
      finished := true;
    }

    method RequeueJob(id: string) returns (requeued: bool)
      modifies this
      ensures Snapshot() == Requeue(old(Snapshot()), id)
      ensures RequeueContract(old(Truth(Snapshot())), id, if requeued then Ids([id]) else Nil, Truth(Snapshot()))
    {
      if id !in jobs || Finished(jobs[id].status) {
        return false;
      }
      var job := jobs[id];
      jobs := jobs[id := Released(job)];
      running := Drop(running, job.queue, id);
      seqno := seqno + 1;
      waiting := Add(waiting, job.queue, Member(seqno, id), -job.priority);
      counters := Bump(counters, job.queue, job.status, -1);
      counters := Bump(counters, job.queue, Queued, 1);
      requeued := true;
    }

    method ReleaseExpired(q: string, id: string) returns (released: bool)
      modifies this
      ensures Snapshot() == ReclaimOne(old(Snapshot()), q, id)
      ensures released == (id in old(jobs) && old(jobs)[id].status.Running?)
    {
      released := id in jobs && jobs[id].status.Running?;
      if released {
        var job := jobs[id];
        jobs := jobs[id := Released(job)];
        running := Drop(running, q, id);
        seqno := seqno + 1;
        waiting := Add(waiting, q, Member(seqno, id), -job.priority);
        counters := Bump(counters, q, Running, -1);
        counters := Bump(counters, q, Queued, 1);
      }
    }

    /** The sweep of one queue: a fixed range is read first, then its rows are released in order. */
    method ReclaimExpired(q: string, now: int) returns (out: seq<string>)
      modifies this
      ensures Snapshot() == Reclaim(old(Snapshot()), q, now)
      ensures out == ReclaimedIds(old(Snapshot()), q, Expired(old(Snapshot()), q, now))
      ensures old(Agree(Snapshot())) ==>
        ReclaimContract(old(Truth(Snapshot())), q, now, Ids(out), Truth(Snapshot()))
    {
      ghost var start := Snapshot();
      if Agree(start) {
        StepRefines(start, OpReclaim(q, now));
      }
      ghost var order := Expired(start, q, now);
      var rest := UpTo(At(running, q), now);
      ghost var done: seq<string> := [];
      out := [];
      while rest != map[]
        invariant done + Ordered(rest, Plain) == order
        invariant Snapshot() == ReclaimAll(start, q, done)
        invariant out == ReclaimedIds(start, q, done)
        decreases |rest|
      {
        LeastExists(rest, Plain);
        var id :| id in rest && IsLeast(rest, Plain, id);
        OrderedSplits(done, rest, id);
        ReclaimStep(start, q, done, id);
        var released := ReleaseExpired(q, id);
        if released {
          out := out + [id];
        }
        done := done + [id];
        rest := rest - {id};
      }
      assert done + [] == done;
    }

    /** The counters as reported, floored at zero. */
    method Counts(q: string, st: State) returns (n: nat)
      ensures Agree(Snapshot()) ==> n == |set id | id in jobs && jobs[id].queue == q && jobs[id].status == st|
    {
      assert InState(jobs, q, st) == set id | id in jobs && jobs[id].queue == q && jobs[id].status == st;
      var c := Count(counters, q, st);
      n := if c < 0 then 0 else c;
    }
  }
}
