/** The storage contract every backend promises, on the job rows and the outbox alone, and the proof that
    the Redis scripts keep it along every legal history. */
module StorageContract {
  import opened Options
  import opened MemberKeys
  import opened SortedSet
  import opened RedisBackend
  import opened RedisAgreement

  datatype Table = Table(jobs: map<string, Job>, events: seq<Event>)

  function Truth(s: Store): Table {
    Table(s.jobs, s.events)
  }

  predicate OpenRow(t: Table, id: string) {
    id in t.jobs && !t.jobs[id].status.Completed? && !t.jobs[id].status.Failed?
  }

  /** A claimed row: running under the claimer until the stamp, one attempt more, the rest as before. */
  predicate ClaimedBy(a: Job, b: Job, worker: string, leaseAt: int) {
    && b.status == Running && b.worker == worker && b.lease == Some(leaseAt) && b.attempts == a.attempts + 1
    && b.queue == a.queue && b.payload == a.payload && b.priority == a.priority
    && b.result == a.result && b.error == a.error
  }

  /** A row back in its queue: no owner, no lease, the attempts kept, the rest as before. */
  predicate Returned(a: Job, b: Job) {
    && b.status == Queued && b.worker == "" && b.lease == None && b.attempts == a.attempts
    && b.queue == a.queue && b.payload == a.payload && b.priority == a.priority
    && b.result == a.result && b.error == a.error
  }

  /** The outbox and every row but `id` are as before. */
  predicate OnlyRow(t: Table, t': Table, id: string) {
    && t'.events == t.events && t'.jobs.Keys == t.jobs.Keys && id in t.jobs
    && forall x :: x in t.jobs && x != id ==> t'.jobs[x] == t.jobs[x]
  }

  predicate WaitsOn(t: Table, q: string, id: string) {
    id in t.jobs && t.jobs[id].queue == q && t.jobs[id].status == Queued
  }

  /** Some queued job of top priority starts; none does exactly when none is queued. */
  predicate ClaimContract(t: Table, q: string, worker: string, leaseAt: int, r: Reply, t': Table) {
    if r.Nil? then t' == t && forall id :: id in t.jobs ==> !WaitsOn(t, q, id)
    else
      && |r.ids| == 1 && WaitsOn(t, q, r.ids[0])
      && (forall x :: x in t.jobs && WaitsOn(t, q, x) ==> t.jobs[x].priority <= t.jobs[r.ids[0]].priority)
      && OnlyRow(t, t', r.ids[0]) && ClaimedBy(t.jobs[r.ids[0]], t'.jobs[r.ids[0]], worker, leaseAt)
  }

  /** The row and its event change together, or neither does. */
  predicate FinishContract(t: Table, id: string, st: State, result: string, error: string,
                           ev: Option<(string, string)>, r: Reply, t': Table) {
    if OpenRow(t, id) then
      && r == Ids([id])
      && t'.jobs == t.jobs[id := t.jobs[id].(status := st, result := result, error := error)]
      && t'.events == t.events + if ev.Some? then [Event(id, t.jobs[id].queue, ev.value.0, ev.value.1)] else []
    else r == Nil && t' == t
  }

  predicate RenewContract(t: Table, id: string, worker: string, leaseAt: int, r: Reply, t': Table) {
    if id in t.jobs && t.jobs[id].status.Running? && t.jobs[id].worker == worker then
      r == Ids([id]) && t' == t.(jobs := t.jobs[id := t.jobs[id].(lease := Some(leaseAt))])
    else r == Nil && t' == t
  }

  predicate RequeueContract(t: Table, id: string, r: Reply, t': Table) {
    if OpenRow(t, id) then r == Ids([id]) && OnlyRow(t, t', id) && Returned(t.jobs[id], t'.jobs[id])
    else r == Nil && t' == t
  }

  /** A running job of `q` whose lease ended at or before `now`. */
  predicate Late(t: Table, q: string, now: int, id: string) {
    && id in t.jobs && t.jobs[id].queue == q && t.jobs[id].status == Running
    && t.jobs[id].lease.Some? && t.jobs[id].lease.value <= now
  }

  /** Exactly the lapsed rows of the queue return to it, all at once, and are reported once each. */
  predicate ReclaimContract(t: Table, q: string, now: int, r: Reply, t': Table) {
    && r.Ids?
    && (forall i, j :: 0 <= i < j < |r.ids| ==> r.ids[i] != r.ids[j])
    && (forall id :: id in r.ids ==> Late(t, q, now, id))
    && t'.events == t.events && t'.jobs.Keys == t.jobs.Keys
    && (forall id :: id in t.jobs ==>
          if Late(t, q, now, id) then id in r.ids && Returned(t.jobs[id], t'.jobs[id]) else t'.jobs[id] == t.jobs[id])
  }

  predicate Contract(t: Table, op: Op, r: Reply, t': Table) {
    match op
    case OpEnqueue(id, q, payload, priority) =>
      r == Ids([id]) && t' == t.(jobs := t.jobs[id := Job(q, Queued, payload, priority, 0, "", None, "", "")])
    case OpClaim(q, worker, leaseAt) => ClaimContract(t, q, worker, leaseAt, r, t')
    case OpRenew(id, worker, leaseAt) => RenewContract(t, id, worker, leaseAt, r, t')
    case OpComplete(id, result, ev) => FinishContract(t, id, Completed, result, "", ev, r, t')
    case OpFail(id, error, ev) => FinishContract(t, id, Failed, "", error, ev, r, t')
    case OpRequeue(id) => RequeueContract(t, id, r, t')
    case OpReclaim(q, now) => ReclaimContract(t, q, now, r, t')
  }

  lemma {:induction false} NothingWaiting(s: Store, q: string)
    requires Agree(s) && At(s.waiting, q) == map[]
    ensures forall id :: id in s.jobs ==> !Counted(s.jobs, id, q, Queued)
  {
    forall id | id in s.jobs && Counted(s.jobs, id, q, Queued)
      ensures false
    {
      var m := QueuedMember(s, id);
    }
  }

  lemma {:induction false} HeadHasTopPriority(s: Store, q: string, x: string)
    requires Agree(s) && At(s.waiting, q) != map[] && Counted(s.jobs, x, q, Queued)
    ensures Head(s, q).id in s.jobs && s.jobs[x].priority <= s.jobs[Head(s, q).id].priority
  {
    HeadIsQueued(s, q);
    var m := QueuedMember(s, x);
    assert StandsFor(s.jobs, s.seqno, q, m, s.waiting[q][m]);
    assert m == Head(s, q) || Before(At(s.waiting, q), Text, Head(s, q), m);
  }

  lemma {:induction false} ClaimRefines(s: Store, q: string, worker: string, leaseAt: int)
    requires Agree(s)
    ensures ClaimContract(Truth(s), q, worker, leaseAt, Answer(s, OpClaim(q, worker, leaseAt)),
                          Truth(Claim(s, q, worker, leaseAt)))
  {
    if At(s.waiting, q) == map[] {
      NothingWaiting(s, q);
    } else {
      HeadIsQueued(s, q);
      forall x | x in s.jobs && Counted(s.jobs, x, q, Queued)
        ensures s.jobs[x].priority <= s.jobs[Head(s, q).id].priority
      {
        HeadHasTopPriority(s, q, x);
      }
    }
  }

  lemma {:induction false} ReclaimRefines(s: Store, q: string, now: int)
    requires Agree(s)
    ensures ReclaimContract(Truth(s), q, now, Answer(s, OpReclaim(q, now)), Truth(Reclaim(s, q, now)))
  {
    var ids := Expired(s, q, now);
    SweepReleases(s, q, now, ids);
    ReleaseMeetsContract(Truth(s), q, now, ids, Truth(Reclaim(s, q, now)));
  }

  lemma {:induction false} SweepReleases(s: Store, q: string, now: int, ids: seq<string>)
    requires Agree(s) && ids == Expired(s, q, now)
    ensures Truth(Reclaim(s, q, now)) == Table(ReleasedAll(s.jobs, ids), s.events)
    ensures Answer(s, OpReclaim(q, now)) == Ids(ids)
    ensures forall i, j :: 0 <= i < j < |ids| ==> ids[i] != ids[j]
    ensures forall id :: id in ids <==> Lapsed(s.jobs, id, q, now)
  {
    ExpiredRun(s, q, now);
    ReclaimLoop(s, q, ids);
  }

  lemma {:induction false} ReleaseMeetsContract(t: Table, q: string, now: int, ids: seq<string>, t': Table)
    requires t'.jobs == ReleasedAll(t.jobs, ids) && t'.events == t.events
    requires forall i, j :: 0 <= i < j < |ids| ==> ids[i] != ids[j]
    requires forall id :: id in ids <==> Lapsed(t.jobs, id, q, now)
    ensures ReclaimContract(t, q, now, Ids(ids), t')
  {
  }

  // ------------------------------------------------------------- claim order

  /** While fewer than 10^20 numbers were drawn, the head of a queue has the highest priority and, among
      those, the earliest number. */
  lemma {:induction false} HeadIsFirstOfTopPriority(s: Store, q: string, m: Member)
    requires Agree(s) && s.seqno < Pow10(Width) && In(s.waiting, q, m)
    ensures var h := Head(s, q);
      h == m || (h.id in s.jobs && m.id in s.jobs &&
                 (s.jobs[m.id].priority < s.jobs[h.id].priority ||
                  (s.jobs[m.id].priority == s.jobs[h.id].priority && h.number < m.number)))
  {
    HeadIsQueued(s, q);
    var h := Head(s, q);
    assert StandsFor(s.jobs, s.seqno, q, m, s.waiting[q][m]);
    if h != m {
      assert Before(At(s.waiting, q), Text, h, m);
      TextOrder(h, m);
    }
  }

  // ---------------------------------------------------------------- the line

  ghost function NumberOf(jobs: map<string, Job>, waiting: Index<Member>, id: string): nat
    requires id in jobs && InQueue(jobs, waiting, id)
  {
    var m :| m in At(waiting, jobs[id].queue) && m.id == id;
    m.number
  }

  /** The waiting jobs, each with the number it waits under. */
  ghost function Line(s: Store): map<string, nat> {
    map id | id in s.jobs && InQueue(s.jobs, s.waiting, id) :: NumberOf(s.jobs, s.waiting, id)
  }

  /** `id` waits behind everyone else, who keep their places. */
  predicate JoinsBack(line: map<string, nat>, line': map<string, nat>, id: string) {
    && id in line' && line'.Keys == line.Keys + {id}
    && forall x :: x in line && x != id ==> line'[x] == line[x] && line[x] < line'[id]
  }

  /** All of `ids`, in this order, wait behind everyone else. */
  predicate AllJoinBack(line: map<string, nat>, line': map<string, nat>, ids: seq<string>) {
    && line'.Keys == line.Keys + (set id | id in ids)
    && (forall x :: x in line ==> line'[x] == line[x])
    && (forall i :: 0 <= i < |ids| ==> ids[i] !in line)
    && (forall x, i :: x in line && 0 <= i < |ids| ==> line[x] < line'[ids[i]])
    && (forall i, j :: 0 <= i < j < |ids| ==> line'[ids[i]] < line'[ids[j]])
  }

  /** The job of highest priority that has waited longest. */
  predicate IsOldest(t: Table, line: map<string, nat>, q: string, id: string) {
    && id in line && WaitsOn(t, q, id)
    && forall x :: x in t.jobs && WaitsOn(t, q, x) && x != id ==>
         && x in line
         && (t.jobs[x].priority < t.jobs[id].priority ||
             (t.jobs[x].priority == t.jobs[id].priority && line[id] < line[x]))
  }

  /** The order part of the contract: a claim takes the oldest job of the highest priority out of the line, a
      job that is enqueued or queued again joins at the back, and nothing else moves. */
  predicate OrderContract(t: Table, line: map<string, nat>, op: Op, r: Reply, line': map<string, nat>) {
    match op
    case OpEnqueue(id, _, _, _) => JoinsBack(line, line', id)
    case OpClaim(q, _, _) =>
      if r.Nil? then line' == line else |r.ids| == 1 && IsOldest(t, line, q, r.ids[0]) && line' == line - {r.ids[0]}
    case OpRequeue(id) => if r.Nil? then line' == line else JoinsBack(line, line', id)
    case OpReclaim(_, _) => r.Ids? && AllJoinBack(line, line', r.ids)
    case _ => line' == line
  }

  lemma {:induction false} LineOf(s: Store, q: string, m: Member)
    requires Agree(s) && In(s.waiting, q, m)
    ensures m.id in Line(s) && Line(s)[m.id] == m.number
  {
    assert StandsFor(s.jobs, s.seqno, q, m, s.waiting[q][m]);
    assert m in At(s.waiting, s.jobs[m.id].queue);
    assert InQueue(s.jobs, s.waiting, m.id);
    var x :| x in At(s.waiting, s.jobs[m.id].queue) && x.id == m.id && x.number == NumberOf(s.jobs, s.waiting, m.id);
    assert In(s.waiting, q, x);
  }

  /** Under agreement exactly the queued jobs are in the line. */
  lemma {:induction false} LineMember(s: Store, id: string) returns (m: Member)
    requires Agree(s) && id in Line(s)
    ensures id in s.jobs && s.jobs[id].status.Queued? && In(s.waiting, s.jobs[id].queue, m) && m.id == id
    ensures Line(s)[id] == m.number <= s.seqno
  {
    m :| m in At(s.waiting, s.jobs[id].queue) && m.id == id;
    assert In(s.waiting, s.jobs[id].queue, m);
    assert StandsFor(s.jobs, s.seqno, s.jobs[id].queue, m, s.waiting[s.jobs[id].queue][m]);
    LineOf(s, s.jobs[id].queue, m);
  }

  lemma {:induction false} QueuedIsInLine(s: Store, id: string)
    requires Agree(s) && id in s.jobs && s.jobs[id].status.Queued?
    ensures id in Line(s)
  {
    var m := QueuedMember(s, id);
    LineOf(s, s.jobs[id].queue, m);
  }

  /** A job whose member stays where it is keeps its place. */
  lemma {:induction false} PlaceKept(s: Store, s': Store, x: string)
    requires Agree(s) && Agree(s') && x in Line(s) && x in s'.jobs && s'.jobs[x].queue == s.jobs[x].queue
    requires forall m :: In(s.waiting, s.jobs[x].queue, m) && m.id == x ==> In(s'.waiting, s.jobs[x].queue, m)
    ensures x in Line(s') && Line(s')[x] == Line(s)[x]
  {
    var m := LineMember(s, x);
    LineOf(s', s.jobs[x].queue, m);
  }

  /** Nothing moves when the queue sets are untouched and the same jobs are queued. */
  lemma {:induction false} LineUntouched(s: Store, s': Store)
    requires Agree(s) && Agree(s') && s'.waiting == s.waiting
    requires s'.jobs.Keys == s.jobs.Keys && forall x :: x in s.jobs ==> s'.jobs[x].queue == s.jobs[x].queue
    ensures Line(s') == Line(s)
  {
    forall x | x in Line(s)
      ensures x in Line(s') && Line(s')[x] == Line(s)[x]
    {
      PlaceKept(s, s', x);
    }
    forall x | x in Line(s')
      ensures x in Line(s)
    {
      PlaceKept(s', s, x);
    }
  }

  lemma {:induction false} EarlierStays(s: Store, s': Store, id: string, job: Job, x: string)
    requires Agree(s) && Agree(s') && x in Line(s)
    requires s'.waiting == Add(s.waiting, job.queue, Member(s.seqno + 1, id), -job.priority)
    ensures x in Line(s') && Line(s')[x] == Line(s)[x] <= s.seqno
  {
    var m := LineMember(s, x);
    assert In(s'.waiting, s.jobs[x].queue, m);
    LineOf(s', s.jobs[x].queue, m);
  }

  lemma {:induction false} NobodyElseJoins(s: Store, s': Store, id: string, job: Job, x: string)
    requires Agree(s) && Agree(s') && s'.jobs == s.jobs[id := job] && x in Line(s') && x != id
    ensures x in Line(s)
  {
    var m := LineMember(s', x);
    QueuedIsInLine(s, x);
  }

  lemma {:induction false} NotQueuedNotInLine(s: Store, id: string)
    requires Agree(s) && (id in s.jobs ==> !s.jobs[id].status.Queued?)
    ensures id !in Line(s)
  {
    if id in Line(s) {
      var _ := LineMember(s, id);
    }
  }

  lemma {:induction false} JoinsTheBack(line: map<string, nat>, line': map<string, nat>, id: string)
    requires id !in line && id in line'
    requires forall x :: x in line ==> x in line' && line'[x] == line[x] < line'[id]
    requires forall x :: x in line' && x != id ==> x in line
    ensures JoinsBack(line, line', id)
  {
  }

  /** A job that gets a member under the next number joins at the back. */
  lemma {:induction false} NewMemberJoins(s: Store, s': Store, id: string, job: Job)
    requires Agree(s) && Agree(s') && (id in s.jobs ==> !s.jobs[id].status.Queued?)
    requires s'.jobs == s.jobs[id := job]
    requires s'.waiting == Add(s.waiting, job.queue, Member(s.seqno + 1, id), -job.priority)
    ensures JoinsBack(Line(s), Line(s'), id) && id !in Line(s)
  {
    var line, line', joined := Line(s), Line(s'), Member(s.seqno + 1, id);
    assert In(s'.waiting, job.queue, joined);
    LineOf(s', job.queue, joined);
    NotQueuedNotInLine(s, id);
    forall x | x in line
      ensures x in line' && line'[x] == line[x] < line'[id]
    {
      EarlierStays(s, s', id, job, x);
    }
    forall x | x in line' && x != id
      ensures x in line
    {
      NobodyElseJoins(s, s', id, job, x);
    }
    JoinsTheBack(line, line', id);
  }

  lemma {:induction false} EnqueueOrder(s: Store, id: string, q: string, payload: string, priority: int)
    requires Agree(s) && id !in s.jobs
    ensures JoinsBack(Line(s), Line(Enqueue(s, id, q, payload, priority)), id)
  {
    EnqueueKeeps(s, id, q, payload, priority);
    var job := Job(q, Queued, payload, priority, 0, "", None, "", "");
    var s' := Enqueue(s, id, q, payload, priority);
    assert s'.jobs == s.jobs[id := job] && s'.waiting == Add(s.waiting, q, Member(s.seqno + 1, id), -priority);
    NewMemberJoins(s, s', id, job);
  }

  lemma {:induction false} PutBackOrder(s: Store, id: string, q: string)
    requires Agree(s) && Counted(s.jobs, id, q, Running)
    ensures JoinsBack(Line(s), Line(PutBack(s, id, q)), id) && id !in Line(s)
  {
    PutBackKeeps(s, id, q);
    var job, s' := Released(s.jobs[id]), PutBack(s, id, q);
    assert job.queue == q && job.status.Queued?;
    PutBackShape(s, id, q);
    NewMemberJoins(s, s', id, job);
  }

  lemma {:induction false} PutBackShape(s: Store, id: string, q: string)
    requires id in s.jobs
    ensures var job, s' := Released(s.jobs[id]), PutBack(s, id, q);
      s'.jobs == s.jobs[id := job] && s'.waiting == Add(s.waiting, q, Member(s.seqno + 1, id), -job.priority)
  {
  }

  lemma {:induction false} OneMoreJoins(line: map<string, nat>, mid: map<string, nat>, end: map<string, nat>,
                                        front: seq<string>, id: string)
    requires AllJoinBack(line, mid, front) && JoinsBack(mid, end, id) && id !in mid
    ensures AllJoinBack(line, end, front + [id])
  {
    var ids := front + [id];
    assert end.Keys == line.Keys + (set x | x in ids) by {
      assert (set x | x in ids) == (set x | x in front) + {id};
    }
    forall i | 0 <= i < |ids|
      ensures ids[i] !in line && ids[i] in end
      ensures forall x :: x in line ==> line[x] < end[ids[i]]
      ensures forall j :: 0 <= j < i ==> end[ids[j]] < end[ids[i]]
    {
      if i < |front| {
        JoinedEarlier(line, mid, end, front, id, i);
      } else {
        assert forall j :: 0 <= j < |front| ==> ids[j] == front[j] && front[j] in mid;
      }
    }
  }

  lemma {:induction false} JoinedEarlier(line: map<string, nat>, mid: map<string, nat>, end: map<string, nat>,
                                         front: seq<string>, id: string, i: nat)
    requires AllJoinBack(line, mid, front) && JoinsBack(mid, end, id) && id !in mid && i < |front|
    ensures front[i] !in line && front[i] in end && end[front[i]] == mid[front[i]]
    ensures forall x :: x in line ==> line[x] < end[front[i]]
    ensures forall j :: 0 <= j < i ==> front[j] in end && end[front[j]] < end[front[i]]
  {
    assert forall j :: 0 <= j < |front| ==> front[j] in mid;
  }

  lemma {:induction false} ReclaimLoopOrder(s: Store, q: string, ids: seq<string>)
    requires Agree(s) && AllRunning(s, q, ids)
    ensures AllJoinBack(Line(s), Line(ReclaimAll(s, q, ids)), ids)
  {
    if ids != [] {
      var front, id := ids[..|ids| - 1], ids[|ids| - 1];
      assert ids == front + [id] && id !in front;
      ReclaimLoop(s, q, front);
      ReclaimLoopKeeps(s, q, front);
      ReclaimLoopOrder(s, q, front);
      assert id in ids && Counted(s.jobs, id, q, Running);
      var mid := ReclaimAll(s, q, front);
      PutBackOrder(mid, id, q);
      OneMoreJoins(Line(s), Line(mid), Line(PutBack(mid, id, q)), front, id);
    }
  }

  lemma {:induction false} OtherStays(s: Store, s': Store, q: string, h: Member, x: string)
    requires Agree(s) && Agree(s') && x in Line(s) && x != h.id
    requires s'.waiting == Drop(s.waiting, q, h)
    ensures x in Line(s') && Line(s')[x] == Line(s)[x]
  {
    var m := LineMember(s, x);
    assert In(s'.waiting, s.jobs[x].queue, m);
    LineOf(s', s.jobs[x].queue, m);
  }

  lemma {:induction false} NobodyJoins(s: Store, s': Store, h: Member, job: Job, x: string)
    requires Agree(s) && Agree(s') && !job.status.Queued? && s'.jobs == s.jobs[h.id := job] && x in Line(s')
    ensures x in Line(s) && x != h.id
  {
    var m := LineMember(s', x);
    QueuedIsInLine(s, x);
  }

  /** When a member leaves with its job, everyone else keeps their place. */
  lemma {:induction false} MemberLeaves(s: Store, s': Store, q: string, h: Member, job: Job)
    requires Agree(s) && Agree(s') && !job.status.Queued?
    requires s'.jobs == s.jobs[h.id := job] && s'.waiting == Drop(s.waiting, q, h)
    ensures Line(s') == Line(s) - {h.id}
  {
    var line, line' := Line(s), Line(s');
    forall x | x in line && x != h.id
      ensures x in line' && line'[x] == line[x]
    {
      OtherStays(s, s', q, h, x);
    }
    forall x | x in line'
      ensures x in line && x != h.id
    {
      NobodyJoins(s, s', h, job, x);
    }
    WithoutOne(line, line', h.id);
  }

  lemma {:induction false} WithoutOne(line: map<string, nat>, line': map<string, nat>, id: string)
    requires forall x :: x in line && x != id ==> x in line' && line'[x] == line[x]
    requires forall x :: x in line' ==> x in line && x != id
    ensures line' == line - {id}
  {
  }

  lemma {:induction false} ClaimLine(s: Store, q: string, worker: string, leaseAt: int)
    requires Agree(s) && At(s.waiting, q) != map[]
    ensures Line(Claim(s, q, worker, leaseAt)) == Line(s) - {Head(s, q).id}
  {
    var s', h := Claim(s, q, worker, leaseAt), Head(s, q);
    HeadIsQueued(s, q);
    ClaimKeeps(s, q, worker, leaseAt);
    var job := Started(s.jobs[h.id], worker, leaseAt);
    assert s'.jobs == s.jobs[h.id := job];
    assert s'.waiting == Drop(s.waiting, q, h);
    MemberLeaves(s, s', q, h, job);
  }

  lemma {:induction false} ClaimTakesOldest(s: Store, q: string)
    requires Agree(s) && s.seqno <= MaxIncr && At(s.waiting, q) != map[]
    ensures IsOldest(Truth(s), Line(s), q, Head(s, q).id)
  {
    HeadIsQueued(s, q);
    var h := Head(s, q);
    LineOf(s, q, h);
    forall x | x in s.jobs && Counted(s.jobs, x, q, Queued) && x != h.id
      ensures x in Line(s)
      ensures s.jobs[x].priority < s.jobs[h.id].priority ||
        (s.jobs[x].priority == s.jobs[h.id].priority && Line(s)[h.id] < Line(s)[x])
    {
      var m := QueuedMember(s, x);
      LineOf(s, q, m);
      IncrIsOrdered();
      HeadIsFirstOfTopPriority(s, q, m);
    }
  }

  lemma {:induction false} ReclaimOrder(s: Store, q: string, now: int)
    requires Agree(s)
    ensures OrderContract(Truth(s), Line(s), OpReclaim(q, now), Answer(s, OpReclaim(q, now)), Line(Reclaim(s, q, now)))
  {
    ExpiredRun(s, q, now);
    ReclaimLoop(s, q, Expired(s, q, now));
    ReclaimLoopOrder(s, q, Expired(s, q, now));
  }

  lemma {:induction false} ClaimOrder(s: Store, q: string, worker: string, leaseAt: int)
    requires Agree(s) && s.seqno <= MaxIncr
    ensures OrderContract(Truth(s), Line(s), OpClaim(q, worker, leaseAt), Answer(s, OpClaim(q, worker, leaseAt)),
                          Line(Claim(s, q, worker, leaseAt)))
  {
    if At(s.waiting, q) != map[] {
      ClaimLine(s, q, worker, leaseAt);
      ClaimTakesOldest(s, q);
    }
  }

  lemma {:induction false} RequeueOrder(s: Store, id: string)
    requires Agree(s) && Legal(s, OpRequeue(id))
    ensures OrderContract(Truth(s), Line(s), OpRequeue(id), Answer(s, OpRequeue(id)), Line(Requeue(s, id)))
  {
    if Open(s, id) {
      PutBackOrder(s, id, s.jobs[id].queue);
    }
  }

  lemma {:induction false} UnmovedOrder(s: Store, op: Op)
    requires Agree(s) && Legal(s, op) && (op.OpRenew? || op.OpComplete? || op.OpFail?)
    ensures Line(Apply(s, op)) == Line(s)
  {
    LegalKeeps(s, op);
    LineUntouched(s, Apply(s, op));
  }

  /** Along legal scripts, while INCR has not run out of its 64 bits, the order part of the contract holds too. */
  lemma {:induction false} StepKeepsOrder(s: Store, op: Op)
    requires Agree(s) && Legal(s, op) && s.seqno <= MaxIncr
    ensures OrderContract(Truth(s), Line(s), op, Answer(s, op), Line(Apply(s, op)))
  {
    match op
    case OpEnqueue(id, q, payload, priority) => EnqueueOrder(s, id, q, payload, priority);
    case OpClaim(q, worker, leaseAt) => ClaimOrder(s, q, worker, leaseAt);
    case OpRequeue(id) => RequeueOrder(s, id);
    case OpReclaim(q, now) => ReclaimOrder(s, q, now);
    case _ => UnmovedOrder(s, op);
  }

  /** From agreeing indexes every script does to the rows and the outbox what the contract says. */
  lemma {:induction false} StepRefines(s: Store, op: Op)
    requires Agree(s)
    ensures Contract(Truth(s), op, Answer(s, op), Truth(Apply(s, op)))
  {
    match op
    case OpClaim(q, worker, leaseAt) => ClaimRefines(s, q, worker, leaseAt);
    case OpReclaim(q, now) => ReclaimRefines(s, q, now);
    case _ =>
  }

  /** The script at position `k` of a history did what the contract says. */
  ghost predicate StepKept(ops: seq<Op>, k: nat)
    requires k < |ops|
  {
    var before, after := ApplyAll(Empty, ops[..k]), ApplyAll(Empty, ops[..k + 1]);
    && Contract(Truth(before), ops[k], Answer(before, ops[k]), Truth(after))
    && (before.seqno <= MaxIncr ==>
          OrderContract(Truth(before), Line(before), ops[k], Answer(before, ops[k]), Line(after)))
  }

  lemma {:induction false} HistoryAgrees(ops: seq<Op>)
    requires AllLegal(Empty, ops)
    ensures Agree(ApplyAll(Empty, ops))
  {
    EmptyAgrees();
    AgreeKept(Empty, ops);
  }

  lemma {:induction false} LegalPrefix(ops: seq<Op>, k: nat)
    requires AllLegal(Empty, ops) && k <= |ops|
    ensures AllLegal(Empty, ops[..k])
  {
    if k < |ops| {
      LegalPrefix(ops[..|ops| - 1], k);
      assert ops[..|ops| - 1][..k] == ops[..k];
    } else {
      assert ops[..k] == ops;
    }
  }

  lemma {:induction false} OneStepKept(ops: seq<Op>, k: nat)
    requires AllLegal(Empty, ops) && k < |ops|
    ensures StepKept(ops, k)
  {
    LegalPrefix(ops, k);
    HistoryAgrees(ops[..k]);
    var before := ApplyAll(Empty, ops[..k]);
    StepRefines(before, ops[k]);
    LegalAt(ops, k);
    if before.seqno <= MaxIncr {
      StepKeepsOrder(before, ops[k]);
    }
    assert ops[..k + 1][..k] == ops[..k] && ops[..k + 1][k] == ops[k];
  }

  lemma {:induction false} LegalAt(ops: seq<Op>, k: nat)
    requires AllLegal(Empty, ops) && k < |ops|
    ensures Legal(ApplyAll(Empty, ops[..k]), ops[k])
  {
    LegalPrefix(ops, k + 1);
    assert ops[..k + 1][..k] == ops[..k] && ops[..k + 1][k] == ops[k];
  }

  /** Over every legal history from an empty server the indexes agree with the hashes after every script
      and every script refines the contract, its order included. */
  lemma {:induction false} HistoryRefines(ops: seq<Op>)
    requires AllLegal(Empty, ops)
    ensures Agree(ApplyAll(Empty, ops))
    ensures forall k :: 0 <= k < |ops| ==> StepKept(ops, k)
  {
    HistoryAgrees(ops);
    forall k | 0 <= k < |ops|
      ensures StepKept(ops, k)
    {
      OneStepKept(ops, k);
    }
  }

  lemma {:induction false} EmptyAgrees()
    ensures Agree(Empty)
  {
    forall q, st
      ensures InState(Empty.jobs, q, st) == {}
    {
    }
  }

  // --------------------------------------------------------------- ownership

  /** `worker` runs job `id`. */
  predicate RunsIt(t: Table, id: string, worker: string) {
    id in t.jobs && t.jobs[id].status == Running && t.jobs[id].worker == worker
  }

  /** The scripts that release or finish job `id`. */
  predicate Ends(t: Table, op: Op, id: string) {
    match op
    case OpComplete(x, _, _) => x == id
    case OpFail(x, _, _) => x == id
    case OpRequeue(x) => x == id
    case OpReclaim(q, now) => Late(t, q, now, id)
    case _ => false
  }

  /** Whatever meets the contract leaves a running job with its owner, unless it is a script that ends it. */
  lemma {:induction false} OwnerKept(t: Table, op: Op, r: Reply, t': Table, id: string, worker: string)
    requires Contract(t, op, r, t') && RunsIt(t, id, worker) && !Ends(t, op, id)
    requires op.OpEnqueue? ==> op.id !in t.jobs
    ensures RunsIt(t', id, worker)
  {
  }

  ghost predicate NeverEnds(s: Store, ops: seq<Op>, id: string) {
    ops == [] ||
    (NeverEnds(s, ops[..|ops| - 1], id) && !Ends(Truth(ApplyAll(s, ops[..|ops| - 1])), ops[|ops| - 1], id))
  }

  lemma {:induction false} AgreeKept(s: Store, ops: seq<Op>)
    requires Agree(s) && AllLegal(s, ops)
    ensures Agree(ApplyAll(s, ops))
  {
    if ops != [] {
      AgreeKept(s, ops[..|ops| - 1]);
      LegalKeeps(ApplyAll(s, ops[..|ops| - 1]), ops[|ops| - 1]);
    }
  }

  lemma {:induction false} OwnerStays(s: Store, ops: seq<Op>, id: string, worker: string)
    requires Agree(s) && AllLegal(s, ops) && RunsIt(Truth(s), id, worker) && NeverEnds(s, ops, id)
    ensures RunsIt(Truth(ApplyAll(s, ops)), id, worker)
  {
    if ops != [] {
      var front, op := ops[..|ops| - 1], ops[|ops| - 1];
      OwnerStays(s, front, id, worker);
      AgreeKept(s, front);
      var before := ApplyAll(s, front);
      StepRefines(before, op);
      OwnerKept(Truth(before), op, Answer(before, op), Truth(Apply(before, op)), id, worker);
    }
  }

  /** Exactly once under contention, and the owner's renewals: when a claim by `worker` has returned `id`, then
      through every legal history that neither releases nor finishes the job, no claim on any queue returns it
      again, and a renewal by `worker`, and by no one else, is answered and moves the lease. */
  lemma {:induction false} ClaimIsExclusive(s: Store, q: string, worker: string, leaseAt: int, id: string,
                                            later: seq<Op>)
    requires Agree(s) && Answer(s, OpClaim(q, worker, leaseAt)) == Ids([id])
    requires var s1 := Apply(s, OpClaim(q, worker, leaseAt)); AllLegal(s1, later) && NeverEnds(s1, later, id)
    ensures var end := ApplyAll(Apply(s, OpClaim(q, worker, leaseAt)), later);
      && (forall p, w, l :: Answer(end, OpClaim(p, w, l)) != Ids([id]))
      && (forall w, l :: Answer(end, OpRenew(id, w, l)) == if w == worker then Ids([id]) else Nil)
      && (forall l ::
            id in Apply(end, OpRenew(id, worker, l)).jobs
            && Apply(end, OpRenew(id, worker, l)).jobs[id].lease == Some(l))
  {
    var s1 := Apply(s, OpClaim(q, worker, leaseAt));
    StepRefines(s, OpClaim(q, worker, leaseAt));
    LegalKeeps(s, OpClaim(q, worker, leaseAt));
    OwnerStays(s1, later, id, worker);
    AgreeKept(s1, later);
    OwnerAnswers(ApplyAll(s1, later), id, worker);
  }

  lemma {:induction false} OwnerAnswers(s: Store, id: string, worker: string)
    requires Agree(s) && RunsIt(Truth(s), id, worker)
    ensures forall p, w, l :: Answer(s, OpClaim(p, w, l)) != Ids([id])
    ensures forall w, l :: Answer(s, OpRenew(id, w, l)) == if w == worker then Ids([id]) else Nil
    ensures forall l ::
      id in Apply(s, OpRenew(id, worker, l)).jobs && Apply(s, OpRenew(id, worker, l)).jobs[id].lease == Some(l)
  {
    forall p, w, l
      ensures Answer(s, OpClaim(p, w, l)) != Ids([id])
    {
      StepRefines(s, OpClaim(p, w, l));
    }
  }

  // ------------------------------------- what breaking the rules leads to

  /** A terminal script on the queued head of a queue is undone by the next claim: the finished job is
      handed out again. */
  lemma {:induction false} FinishedHeadIsHandedOutAgain(s: Store, q: string, st: State, worker: string, leaseAt: int)
    requires Agree(s) && At(s.waiting, q) != map[] && Finished(st)
    ensures var id := Head(s, q).id;
      var s' := Finish(s, id, st, "", "", None);
      && id in s.jobs && s.jobs[id].status.Queued?
      && id in s'.jobs && s'.jobs[id].status == st
      && Answer(s', OpClaim(q, worker, leaseAt)) == Ids([id])
      && Claim(s', q, worker, leaseAt).jobs[id].status.Running?
  {
    HeadIsQueued(s, q);
    var id := Head(s, q).id;
    var s' := Finish(s, id, st, "", "", None);
    assert s'.waiting == s.waiting;
    LeastUnique(At(s.waiting, q), Text, Head(s, q), Head(s', q));
  }

  /** The three-script instance: enqueue, complete before any claim, claim. */
  lemma {:induction false} CompletedJobRunsAgain(id: string, q: string)
    ensures var s := Apply(Apply(Empty, OpEnqueue(id, q, "", 0)), OpComplete(id, "", None));
      && s.jobs[id].status.Completed?
      && Apply(s, OpClaim(q, "w", 1)).jobs[id].status.Running?
  {
    EmptyAgrees();
    var s := Enqueue(Empty, id, q, "", 0);
    EnqueueKeeps(Empty, id, q, "", 0);
    var m := Member(1, id);
    assert In(s.waiting, q, m);
    assert s.waiting[q] == map[m := 0];
    assert Head(s, q) == m;
    FinishedHeadIsHandedOutAgain(s, q, Completed, "w", 1);
  }
}
