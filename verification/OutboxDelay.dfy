/** The outbox drain when events become visible out of order: `created_at` is the start of the transaction that
    writes an event, so a transaction that commits late puts its event ahead of ones that already wait. */
module OutboxDelay {
  import opened DrainLimits
  import opened OutboxDrain

  /** A pass, and then the events that become visible before the next one, each at its place in the order. */
  datatype LateRound = LateRound(faults: Faults, visible: seq<(nat, Entry)>)

  /** A place beyond the end is the end. */
  function Insert(s: seq<Entry>, at: nat, x: Entry): seq<Entry> {
    var k := if at <= |s| then at else |s|;
    s[..k] + [x] + s[k..]
  }

  function InsertAll(s: seq<Entry>, visible: seq<(nat, Entry)>): seq<Entry>
    decreases |visible|
  {
    if visible == [] then s else InsertAll(Insert(s, visible[0].0, visible[0].1), visible[1..])
  }

  function AfterLate(pending: seq<Entry>, rounds: seq<LateRound>): seq<Entry>
    decreases |rounds|
  {
    if rounds == [] then pending else
      AfterLate(InsertAll(Pass(pending, rounds[0].faults), rounds[0].visible), rounds[1..])
  }

  /** The events ahead of a waiting one once the visible ones have found their places. */
  function AheadAfter(ahead: seq<Entry>, visible: seq<(nat, Entry)>): seq<Entry>
    decreases |visible|
  {
    if visible == [] then ahead
    else if visible[0].0 <= |ahead| then AheadAfter(Insert(ahead, visible[0].0, visible[0].1), visible[1..])
    else AheadAfter(ahead, visible[1..])
  }

  /** How many events land ahead over the whole history. */
  function LandAhead(ahead: seq<Entry>, rounds: seq<LateRound>): int
    decreases |rounds|
  {
    if rounds == [] then 0 else
      var left := Pass(ahead, rounds[0].faults);
      var next := AheadAfter(left, rounds[0].visible);
      |next| - |left| + LandAhead(next, rounds[1..])
  }

  predicate AllKnown(s: seq<Entry>) {
    forall i :: 0 <= i < |s| ==> Known(s[i])
  }

  predicate Foreign(visible: seq<(nat, Entry)>, x: nat) {
    forall i :: 0 <= i < |visible| ==> Known(visible[i].1) && visible[i].1.id != x
  }

  predicate AllForeign(rounds: seq<LateRound>, x: nat) {
    forall i :: 0 <= i < |rounds| ==> Foreign(rounds[i].visible, x)
  }

  // -------------------------------------------------------------------- work

  /** The most passes an event can take up. */
  function Budget(e: Entry): (b: nat)
    ensures 1 <= b <= MaxAttempts
  {
    if e.attempts + 1 >= MaxAttempts then 1 else MaxAttempts - e.attempts
  }

  function Work(s: seq<Entry>): nat {
    if s == [] then 0 else Budget(s[0]) + Work(s[1..])
  }

  lemma {:induction false} WorkConcat(a: seq<Entry>, b: seq<Entry>)
    ensures Work(a + b) == Work(a) + Work(b)
  {
    if a == [] {
      assert a + b == b;
    } else {
      WorkConcat(a[1..], b);
      assert (a + b)[1..] == a[1..] + b && (a + b)[0] == a[0];
    }
  }

  lemma {:induction false} WorkBounded(s: seq<Entry>)
    ensures Work(s) <= MaxAttempts * |s|
  {
    if s != [] {
      WorkBounded(s[1..]);
    }
  }

  /** Every event of a batch uses up at least one unit. */
  lemma {:induction false} BatchWorks(batch: seq<Entry>, faults: Faults)
    requires AllKnown(batch)
    ensures AllKnown(Survivors(batch, faults)) && Work(Survivors(batch, faults)) + |batch| <= Work(batch)
  {
    if batch != [] {
      BatchWorks(batch[1..], faults);
      var h := Handled(batch[0], faults(batch[0]));
      WorkConcat(h, Survivors(batch[1..], faults));
      assert h != [] ==> h[1..] == [];
    }
  }

  lemma {:induction false} PassWorks(ahead: seq<Entry>, faults: Faults)
    requires AllKnown(ahead)
    ensures AllKnown(Pass(ahead, faults)) && Work(Pass(ahead, faults)) <= Work(ahead)
    ensures |ahead| >= BatchSize ==> Work(Pass(ahead, faults)) + BatchSize <= Work(ahead)
  {
    var a, b := Take(ahead, BatchSize), Rest(ahead, BatchSize);
    assert ahead == a + b;
    BatchWorks(a, faults);
    WorkConcat(a, b);
    WorkConcat(Survivors(a, faults), b);
  }

  lemma {:induction false} InsertWorks(s: seq<Entry>, at: nat, x: Entry)
    requires AllKnown(s) && Known(x)
    ensures AllKnown(Insert(s, at, x)) && |Insert(s, at, x)| == |s| + 1
    ensures Work(Insert(s, at, x)) <= Work(s) + MaxAttempts
  {
    var k := if at <= |s| then at else |s|;
    assert s == s[..k] + s[k..] && [x][1..] == [];
    WorkConcat(s[..k], s[k..]);
    WorkConcat(s[..k] + [x], s[k..]);
    WorkConcat(s[..k], [x]);
  }

  lemma {:induction false} LandingWorks(ahead: seq<Entry>, visible: seq<(nat, Entry)>, x: nat)
    requires AllKnown(ahead) && Foreign(visible, x)
    ensures var next := AheadAfter(ahead, visible);
      AllKnown(next) && |next| >= |ahead| && Work(next) <= Work(ahead) + MaxAttempts * (|next| - |ahead|)
    decreases |visible|
  {
    if visible != [] {
      var rest := visible[1..];
      assert Foreign(rest, x);
      if visible[0].0 <= |ahead| {
        InsertWorks(ahead, visible[0].0, visible[0].1);
        LandingWorks(Insert(ahead, visible[0].0, visible[0].1), rest, x);
      } else {
        LandingWorks(ahead, rest, x);
      }
    }
  }

  lemma {:induction false} LandAheadCounts(ahead: seq<Entry>, rounds: seq<LateRound>, x: nat)
    requires AllKnown(ahead) && AllForeign(rounds, x)
    ensures LandAhead(ahead, rounds) >= 0
    decreases |rounds|
  {
    if rounds != [] {
      PassWorks(ahead, rounds[0].faults);
      var left := Pass(ahead, rounds[0].faults);
      LandingWorks(left, rounds[0].visible, x);
      LandAheadCounts(AheadAfter(left, rounds[0].visible), rounds[1..], x);
    }
  }

  // ---------------------------------------------------------------- tracking

  lemma {:induction false} WaitsNot(a: seq<Entry>, z: Entry, b: seq<Entry>, x: nat)
    requires z.id != x
    ensures Waits(a + [z] + b, x) <==> Waits(a, x) || Waits(b, x)
  {
    WaitsConcat(a + [z], b, x);
    WaitsConcat(a, [z], x);
    assert !Waits([z], x);
  }

  lemma {:induction false} InsertWaits(s: seq<Entry>, at: nat, z: Entry, x: nat)
    requires z.id != x
    ensures Waits(Insert(s, at, z), x) <==> Waits(s, x)
  {
    var k := if at <= |s| then at else |s|;
    WaitsNot(s[..k], z, s[k..], x);
    WaitsConcat(s[..k], s[k..], x);
    assert s == s[..k] + s[k..];
  }

  lemma {:induction false} InsertAhead(ahead: seq<Entry>, tail: seq<Entry>, at: nat, z: Entry)
    requires at <= |ahead|
    ensures Insert(ahead + tail, at, z) == Insert(ahead, at, z) + tail
  {
    var s := ahead + tail;
    assert s[..at] == ahead[..at] && s[at..] == ahead[at..] + tail;
  }

  lemma {:induction false} InsertBehind(front: seq<Entry>, younger: seq<Entry>, at: nat, z: Entry)
    requires |front| <= at
    ensures Insert(front + younger, at, z) == front + Insert(younger, at - |front|, z)
  {
    var s := front + younger;
    var k := if at <= |s| then at else |s|;
    assert s[..k] == front + younger[..k - |front|] && s[k..] == younger[k - |front|..];
  }

  /** An insertion lands either among the events ahead or among the younger ones. */
  lemma {:induction false} InsertSplits(pending: seq<Entry>, ahead: seq<Entry>, e: Entry, younger: seq<Entry>,
                                        at: nat, z: Entry) returns (younger': seq<Entry>)
    requires Splits(pending, ahead, e, younger) && z.id != e.id
    ensures Splits(Insert(pending, at, z), if at <= |ahead| then Insert(ahead, at, z) else ahead, e, younger')
  {
    if at <= |ahead| {
      younger' := younger;
      InsertWaits(ahead, at, z, e.id);
      assert pending == ahead + ([e] + younger);
      InsertAhead(ahead, [e] + younger, at, z);
    } else {
      younger' := Insert(younger, at - |ahead| - 1, z);
      InsertWaits(younger, at - |ahead| - 1, z, e.id);
      InsertBehind(ahead + [e], younger, at, z);
    }
  }

  lemma {:induction false} InsertAllSplits(pending: seq<Entry>, ahead: seq<Entry>, e: Entry, younger: seq<Entry>,
                                           visible: seq<(nat, Entry)>) returns (younger': seq<Entry>)
    requires Splits(pending, ahead, e, younger) && Foreign(visible, e.id)
    ensures Splits(InsertAll(pending, visible), AheadAfter(ahead, visible), e, younger')
    decreases |visible|
  {
    younger' := younger;
    if visible != [] {
      var at, z, rest := visible[0].0, visible[0].1, visible[1..];
      assert Foreign(rest, e.id);
      var mid := InsertSplits(pending, ahead, e, younger, at, z);
      var ahead' := if at <= |ahead| then Insert(ahead, at, z) else ahead;
      younger' := InsertAllSplits(Insert(pending, at, z), ahead', e, mid, rest);
    }
  }

  lemma {:induction false} InsertAllWaits(s: seq<Entry>, visible: seq<(nat, Entry)>, x: nat)
    requires Foreign(visible, x) && !Waits(s, x)
    ensures !Waits(InsertAll(s, visible), x)
    decreases |visible|
  {
    if visible != [] {
      assert Foreign(visible[1..], x);
      InsertWaits(s, visible[0].0, visible[0].1, x);
      InsertAllWaits(Insert(s, visible[0].0, visible[0].1), visible[1..], x);
    }
  }

  lemma {:induction false} GoneForGood(pending: seq<Entry>, rounds: seq<LateRound>, x: nat)
    requires !Waits(pending, x) && AllForeign(rounds, x)
    ensures !Waits(AfterLate(pending, rounds), x)
    decreases |rounds|
  {
    if rounds != [] {
      PassFewer(pending, rounds[0].faults, x);
      InsertAllWaits(Pass(pending, rounds[0].faults), rounds[0].visible, x);
      GoneForGood(InsertAll(Pass(pending, rounds[0].faults), rounds[0].visible), rounds[1..], x);
    }
  }

  // --------------------------------------------------------------- the bound

  /** What one pass does to a waiting event: it leaves, or it waits behind what the pass left ahead of it and,
      if it was within the batch, has used one unit of its own. */
  lemma {:induction false} OnePass(pending: seq<Entry>, ahead: seq<Entry>, e: Entry, younger: seq<Entry>,
                                   faults: Faults)
    returns (gone: bool, e': Entry, younger': seq<Entry>)
    requires Splits(pending, ahead, e, younger) && Known(e)
    ensures gone ==> !Waits(Pass(pending, faults), e.id)
    ensures !gone ==> Splits(Pass(pending, faults), Pass(ahead, faults), e', younger') && e'.id == e.id && Known(e')
    ensures !gone ==> if |ahead| < BatchSize then Budget(e') < Budget(e) else e' == e
  {
    var round := Round(faults, []);
    assert Pass(pending, faults) + [] == Pass(pending, faults) && !Waits([], e.id);
    BehindOne(ahead, e, faults);
    gone := Behind(ahead, [e], faults) == [];
    e', younger' := e, younger;
    if gone {
      LeftThisRound(pending, ahead, e, younger, round);
    } else {
      e' := StillThere(pending, ahead, e, younger, round);
      younger' := Behind(ahead + [e], younger, faults) + [];
    }
  }

  /** The rounds an event may still need: its own budget, and a batch's worth of the work ahead of it per round,
      counting what will land ahead. */
  function RoundsNeeded(ahead: seq<Entry>, e: Entry, rounds: seq<LateRound>): int {
    Budget(e) + (Work(ahead) + MaxAttempts * LandAhead(ahead, rounds)) / BatchSize
  }

  /** Every round brings the event one round closer, whether it was in the batch or not. */
  lemma {:induction false} NeedShrinks(ahead: seq<Entry>, e: Entry, e': Entry, rounds: seq<LateRound>, x: nat)
    requires rounds != [] && AllKnown(ahead) && AllForeign(rounds, x)
    requires if |ahead| < BatchSize then Budget(e') < Budget(e) else e' == e
    ensures var next := AheadAfter(Pass(ahead, rounds[0].faults), rounds[0].visible);
      AllKnown(next) && RoundsNeeded(next, e', rounds[1..]) < RoundsNeeded(ahead, e, rounds)
  {
    var left := Pass(ahead, rounds[0].faults);
    PassWorks(ahead, rounds[0].faults);
    LandingWorks(left, rounds[0].visible, x);
    var next := AheadAfter(left, rounds[0].visible);
    var n, later := |next| - |left|, LandAhead(next, rounds[1..]);
    assert LandAhead(ahead, rounds) == n + later;
    assert Work(next) + MaxAttempts * later <= Work(left) + MaxAttempts * (n + later);
  }

  lemma {:induction false} DrainsDespiteDelay(pending: seq<Entry>, ahead: seq<Entry>, e: Entry, younger: seq<Entry>,
                                              rounds: seq<LateRound>)
    requires Splits(pending, ahead, e, younger) && Known(e) && AllKnown(ahead) && AllForeign(rounds, e.id)
    requires |rounds| >= RoundsNeeded(ahead, e, rounds)
    ensures !Waits(AfterLate(pending, rounds), e.id)
    decreases |rounds|
  {
    LandAheadCounts(ahead, rounds, e.id);
    var f, visible := rounds[0].faults, rounds[0].visible;
    var passed := Pass(pending, f);
    var gone, e', behind := OnePass(pending, ahead, e, younger, f);
    if gone {
      InsertAllWaits(passed, visible, e.id);
      GoneForGood(InsertAll(passed, visible), rounds[1..], e.id);
    } else {
      NeedShrinks(ahead, e, e', rounds, e.id);
      var younger' := InsertAllSplits(passed, Pass(ahead, f), e', behind, visible);
      DrainsDespiteDelay(InsertAll(passed, visible), AheadAfter(Pass(ahead, f), visible), e', younger', rounds[1..]);
    }
  }

  /** Fairness under late commits: an event at position `p` of known events, ahead of which at most `k` more
      land while it waits, is gone after 10 + (p + k) / 5 passes, whatever the callbacks do. */
  lemma {:induction false} LeavesDespiteLateCommits(pending: seq<Entry>, p: nat, rounds: seq<LateRound>, k: nat)
    requires OnlyAt(pending, p) && AllKnown(pending[..p + 1]) && AllForeign(rounds, pending[p].id)
    requires LandAhead(pending[..p], rounds) <= k
    requires |rounds| >= 10 + (p + k) / 5
    ensures !Waits(AfterLate(pending, rounds), pending[p].id)
  {
    var ahead, e := pending[..p], pending[p];
    WorkBounded(ahead);
    assert pending[..p + 1][p] == e && forall i :: 0 <= i < p ==> ahead[i] == pending[..p + 1][i];
    assert pending == ahead + [e] + pending[p + 1..];
    assert Work(ahead) + MaxAttempts * LandAhead(ahead, rounds) <= MaxAttempts * (p + k);
    assert MaxAttempts * (p + k) / BatchSize == (p + k) / 5;
    DrainsDespiteDelay(pending, ahead, e, pending[p + 1..], rounds);
  }
}
