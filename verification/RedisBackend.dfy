/** The Redis backend: job hashes are the truth; the queue and running sorted sets, the queue names and
    the counters are indexes that the six atomic scripts maintain by hand. */
module RedisBackend {
  import opened Options
  import opened MemberKeys
  import opened SortedSet

  datatype State = Queued | Running | Completed | Failed

  predicate Finished(st: State) {
    st.Completed? || st.Failed?
  }

  datatype Job = Job(
    queue: string,
    status: State,
    payload: string,
    priority: int,
    attempts: nat,
    worker: string,
    lease: Option<int>,
    result: string,
    error: string)

  /** An outbox entry; its sequence number is its position in the list plus one. */
  datatype Event = Event(job: string, queue: string, kind: string, detail: string)

  /** One sorted set per queue; a missing key is an empty set. */
  type Index<K> = map<string, map<K, int>>

  type Counters = map<(string, State), int>

  datatype Store = Store(
    seqno: nat,
    jobs: map<string, Job>,
    waiting: Index<Member>,
    running: Index<string>,
    names: set<string>,
    counters: Counters,
    events: seq<Event>)

  const Empty := Store(0, map[], map[], map[], {}, map[], [])

  // --------------------------------------------------------- server commands

  function At<K>(ix: Index<K>, q: string): map<K, int> {
    if q in ix then ix[q] else map[]
  }

  /** ZADD. */
  function Add<K>(ix: Index<K>, q: string, m: K, score: int): Index<K> {
    ix[q := At(ix, q)[m := score]]
  }

  /** ZREM. */
  function Drop<K>(ix: Index<K>, q: string, m: K): Index<K> {
    ix[q := At(ix, q) - {m}]
  }

  function Count(c: Counters, q: string, st: State): int {
    if (q, st) in c then c[(q, st)] else 0
  }

  /** INCR or DECR. */
  function Bump(c: Counters, q: string, st: State, delta: int): Counters {
    c[(q, st) := Count(c, q, st) + delta]
  }

  function Move(c: Counters, q: string, a: State, b: State): Counters {
    Bump(Bump(c, q, a, -1), q, b, 1)
  }

  // ----------------------------------------------------------------- scripts

  function Enqueue(s: Store, id: string, q: string, payload: string, priority: int): Store {
    var n := s.seqno + 1;
    s.(seqno := n,
       jobs := s.jobs[id := Job(q, Queued, payload, priority, 0, "", None, "", "")],
       waiting := Add(s.waiting, q, Member(n, id), -priority),
       names := s.names + {q},
       counters := Bump(s.counters, q, Queued, 1))
  }

  /** HGET answers nil for every field of a missing hash. */
  function HashOf(s: Store, id: string): Job {
    if id in s.jobs then s.jobs[id] else Job("", Running, "", 0, 0, "", None, "", "")
  }

  function Started(job: Job, worker: string, leaseAt: int): Job {
    job.(status := Running, worker := worker, lease := Some(leaseAt), attempts := job.attempts + 1)
  }

  /** The claim script once ZPOPMIN has returned member `m`: the status is not read again. */
  function TakeMember(s: Store, q: string, m: Member, worker: string, leaseAt: int): Store {
    var id := m.id;
    s.(jobs := s.jobs[id := Started(HashOf(s, id), worker, leaseAt)],
       waiting := Drop(s.waiting, q, m),
       running := Add(s.running, q, id, leaseAt),
       counters := Move(s.counters, q, Queued, Running))
  }

  /** The member ZPOPMIN takes. */
  ghost function Head(s: Store, q: string): (m: Member)
    requires At(s.waiting, q) != map[]
    ensures IsLeast(At(s.waiting, q), Text, m)
  {
    TextInjective();
    Least(At(s.waiting, q), Text)
  }

  ghost function Claim(s: Store, q: string, worker: string, leaseAt: int): Store {
    if At(s.waiting, q) == map[] then s else TakeMember(s, q, Head(s, q), worker, leaseAt)
  }

  predicate Owned(s: Store, id: string, worker: string) {
    id in s.jobs && s.jobs[id].status.Running? && s.jobs[id].worker == worker
  }

  function Renew(s: Store, id: string, worker: string, leaseAt: int): Store {
    if Owned(s, id, worker) then
      s.(jobs := s.jobs[id := s.jobs[id].(lease := Some(leaseAt))],
         running := Add(s.running, s.jobs[id].queue, id, leaseAt))
    else s
  }

  predicate Open(s: Store, id: string) {
    id in s.jobs && !Finished(s.jobs[id].status)
  }

  function Finish(s: Store, id: string, st: State, result: string, error: string, ev: Option<(string, string)>): Store {
    if Open(s, id) then
      var job := s.jobs[id];
      s.(jobs := s.jobs[id := job.(status := st, result := result, error := error)],
         running := Drop(s.running, job.queue, id),
         counters := Move(s.counters, job.queue, job.status, st),
         events := if ev.Some? then s.events + [Event(id, job.queue, ev.value.0, ev.value.1)] else s.events)
    else s
  }

  function Released(job: Job): Job {
    job.(status := Queued, worker := "", lease := None)
  }

  /** Back into queue `q` behind everything enqueued so far. */
  function PutBack(s: Store, id: string, q: string): Store
    requires id in s.jobs
  {
    var job, n := s.jobs[id], s.seqno + 1;
    s.(seqno := n,
       jobs := s.jobs[id := Released(job)],
       waiting := Add(s.waiting, q, Member(n, id), -job.priority),
       running := Drop(s.running, q, id),
       counters := Move(s.counters, q, job.status, Queued))
  }

  function Requeue(s: Store, id: string): Store {
    if Open(s, id) then PutBack(s, id, s.jobs[id].queue) else s
  }

  /** The body of the reclaim loop: the hash decides, not the index. */
  function ReclaimOne(s: Store, q: string, id: string): Store {
    if id in s.jobs && s.jobs[id].status.Running? then PutBack(s, id, q) else s
  }

  function ReclaimAll(s: Store, q: string, ids: seq<string>): Store {
    if ids == [] then s else ReclaimOne(ReclaimAll(s, q, ids[..|ids| - 1]), q, ids[|ids| - 1])
  }

  /** The ids the loop reports. */
  function ReclaimedIds(s: Store, q: string, ids: seq<string>): seq<string> {
    if ids == [] then [] else
      var front, id := ids[..|ids| - 1], ids[|ids| - 1];
      var before := ReclaimAll(s, q, front);
      ReclaimedIds(s, q, front) + if id in before.jobs && before.jobs[id].status.Running? then [id] else []
  }

  /** A member of a running set is the job id itself. */
  function Plain(id: string): string {
    id
  }

  ghost function Expired(s: Store, q: string, now: int): seq<string> {
    Ordered(UpTo(At(s.running, q), now), Plain)
  }

  ghost function Reclaim(s: Store, q: string, now: int): Store {
    ReclaimAll(s, q, Expired(s, q, now))
  }

  // --------------------------------------------------------------- histories

  /** One script call. `Finish` covers both terminal marks, with or without an event. */
  datatype Op =
    | OpEnqueue(id: string, queue: string, payload: string, priority: int)
    | OpClaim(queue: string, worker: string, leaseAt: int)
    | OpRenew(id: string, worker: string, leaseAt: int)
    | OpComplete(id: string, result: string, ev: Option<(string, string)>)
    | OpFail(id: string, error: string, ev: Option<(string, string)>)
    | OpRequeue(id: string)
    | OpReclaim(queue: string, now: int)

  datatype Reply = Nil | Ids(ids: seq<string>)

  ghost function Apply(s: Store, op: Op): Store {
    match op
    case OpEnqueue(id, q, payload, priority) => Enqueue(s, id, q, payload, priority)
    case OpClaim(q, worker, leaseAt) => Claim(s, q, worker, leaseAt)
    case OpRenew(id, worker, leaseAt) => Renew(s, id, worker, leaseAt)
    case OpComplete(id, result, ev) => Finish(s, id, Completed, result, "", ev)
    case OpFail(id, error, ev) => Finish(s, id, Failed, "", error, ev)
    case OpRequeue(id) => Requeue(s, id)
    case OpReclaim(q, now) => Reclaim(s, q, now)
  }

  ghost function Answer(s: Store, op: Op): Reply {
    match op
    case OpEnqueue(id, _, _, _) => Ids([id])
    case OpClaim(q, _, _) => if At(s.waiting, q) == map[] then Nil else Ids([Head(s, q).id])
    case OpRenew(id, worker, _) => if Owned(s, id, worker) then Ids([id]) else Nil
    case OpComplete(id, _, _) => if Open(s, id) then Ids([id]) else Nil
    case OpFail(id, _, _) => if Open(s, id) then Ids([id]) else Nil
    case OpRequeue(id) => if Open(s, id) then Ids([id]) else Nil
    case OpReclaim(q, now) => Ids(ReclaimedIds(s, q, Expired(s, q, now)))
  }

  ghost function ApplyAll(s: Store, ops: seq<Op>): Store {
    if ops == [] then s else Apply(ApplyAll(s, ops[..|ops| - 1]), ops[|ops| - 1])
  }

  // --------------------------------------------------------------- agreement

  predicate In<K>(ix: Index<K>, q: string, m: K) {
    q in ix && m in ix[q]
  }

  /** Member `m` of queue `q` stands for a queued job of that queue, at the negated priority, under a
      number already drawn. */
  predicate StandsFor(jobs: map<string, Job>, n: nat, q: string, m: Member, score: int) {
    && m.number <= n && m.id in jobs && jobs[m.id].queue == q && jobs[m.id].status.Queued?
    && score == -jobs[m.id].priority
  }

  predicate InQueue(jobs: map<string, Job>, waiting: Index<Member>, id: string)
    requires id in jobs
  {
    exists m :: m in At(waiting, jobs[id].queue) && m.id == id
  }

  /** The queue sets hold exactly the queued jobs, once each. */
  ghost predicate WaitingAgrees(jobs: map<string, Job>, waiting: Index<Member>, n: nat) {
    && (forall q, m :: In(waiting, q, m) ==> StandsFor(jobs, n, q, m, waiting[q][m]))
    && (forall q, m, q', m' :: In(waiting, q, m) && In(waiting, q', m') && m != m' ==>
          m.id != m'.id && m.number != m'.number)
    && (forall id :: id in jobs && jobs[id].status.Queued? ==> InQueue(jobs, waiting, id))
  }

  predicate RunsAt(jobs: map<string, Job>, q: string, id: string, score: int) {
    id in jobs && jobs[id].queue == q && jobs[id].status.Running? && jobs[id].lease == Some(score)
  }

  /** The running sets hold exactly the running jobs, scored by their lease. */
  ghost predicate RunningAgrees(jobs: map<string, Job>, running: Index<string>) {
    && (forall q, id :: In(running, q, id) ==> RunsAt(jobs, q, id, running[q][id]))
    && (forall id :: id in jobs && jobs[id].status.Running? ==> In(running, jobs[id].queue, id))
  }

  predicate Counted(jobs: map<string, Job>, id: string, q: string, st: State) {
    id in jobs && jobs[id].queue == q && jobs[id].status == st
  }

  function InState(jobs: map<string, Job>, q: string, st: State): set<string> {
    set id | id in jobs.Keys && Counted(jobs, id, q, st)
  }

  ghost predicate CountersAgree(jobs: map<string, Job>, counters: Counters) {
    forall q, st :: Count(counters, q, st) == |InState(jobs, q, st)|
  }

  /** Every job's queue is one the unfiltered sweep visits. */
  predicate NamesAgree(s: Store) {
    forall id :: id in s.jobs ==> s.jobs[id].queue in s.names
  }

  /** At most one event per job, and only for a finished one. */
  ghost predicate OutboxAgrees(jobs: map<string, Job>, events: seq<Event>) {
    && (forall i :: 0 <= i < |events| ==> events[i].job in jobs && Finished(jobs[events[i].job].status))
    && (forall i, j :: 0 <= i < j < |events| ==> events[i].job != events[j].job)
  }

  ghost predicate Agree(s: Store) {
    && WaitingAgrees(s.jobs, s.waiting, s.seqno)
    && RunningAgrees(s.jobs, s.running)
    && CountersAgree(s.jobs, s.counters)
    && NamesAgree(s)
    && OutboxAgrees(s.jobs, s.events)
  }

  /** What a caller must respect: fresh ids, and terminal or requeue scripts never on a queued job. */
  predicate Legal(s: Store, op: Op) {
    match op
    case OpEnqueue(id, _, _, _) => id !in s.jobs
    case OpComplete(id, _, _) => id in s.jobs ==> !s.jobs[id].status.Queued?
    case OpFail(id, _, _) => id in s.jobs ==> !s.jobs[id].status.Queued?
    case OpRequeue(id) => id in s.jobs ==> !s.jobs[id].status.Queued?
    case _ => true
  }

  ghost predicate AllLegal(s: Store, ops: seq<Op>) {
    ops == [] || (AllLegal(s, ops[..|ops| - 1]) && Legal(ApplyAll(s, ops[..|ops| - 1]), ops[|ops| - 1]))
  }
}
