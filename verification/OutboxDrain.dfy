/** The constants of the outbox drain. */
module DrainLimits {

  const BatchSize: nat := 50
  const MaxAttempts: nat := 10
}

/** The outbox drain: each pass takes the fifty oldest unprocessed events of a project, and an event whose
    callback keeps raising is given up after ten attempts. */
module OutboxDrain {
  import opened Options
  import opened DrainLimits
  import opened Arithmetic

  datatype Entry = Entry(id: nat, run: string, kind: string, attempts: nat)

  predicate Known(e: Entry) {
    e.kind == "completed" || e.kind == "failed" || e.kind == "awaiting_input"
  }

  /** Which callbacks raise during one pass. */
  type Faults = Entry -> bool

  /** What remains of an event after its turn: an unknown kind only counts attempts; a known one leaves
      when its callback returns or has raised too often. */
  function Handled(e: Entry, raises: bool): seq<Entry> {
    if Known(e) && (!raises || e.attempts + 1 >= MaxAttempts) then [] else [e.(attempts := e.attempts + 1)]
  }

  function Survivors(batch: seq<Entry>, faults: Faults): seq<Entry> {
    if batch == [] then [] else Handled(batch[0], faults(batch[0])) + Survivors(batch[1..], faults)
  }

  function Take(s: seq<Entry>, n: nat): seq<Entry> {
    if |s| <= n then s else s[..n]
  }

  function Rest(s: seq<Entry>, n: nat): seq<Entry> {
    if |s| <= n then [] else s[n..]
  }

  /** One pass over the unprocessed events, oldest first. */
  function Pass(pending: seq<Entry>, faults: Faults): seq<Entry> {
    Survivors(Take(pending, BatchSize), faults) + Rest(pending, BatchSize)
  }

  /** A pass and the events written before the next one. */
  datatype Round = Round(faults: Faults, arrivals: seq<Entry>)

  function After(pending: seq<Entry>, rounds: seq<Round>): seq<Entry>
    decreases |rounds|
  {
    if rounds == [] then pending else
      After(Pass(pending, rounds[0].faults) + rounds[0].arrivals, rounds[1..])
  }

  predicate Waits(pending: seq<Entry>, x: nat) {
    exists e :: e in pending && e.id == x
  }

  predicate NeverArrives(rounds: seq<Round>, x: nat) {
    forall i :: 0 <= i < |rounds| ==> !Waits(rounds[i].arrivals, x)
  }

  lemma {:induction false} WaitsConcat(a: seq<Entry>, b: seq<Entry>, x: nat)
    ensures Waits(a + b, x) <==> Waits(a, x) || Waits(b, x)
  {
    assert forall e :: e in a + b <==> e in a || e in b;
  }

  // ----------------------------------------------------------------- survivors

  lemma {:induction false} SurvivorsConcat(a: seq<Entry>, b: seq<Entry>, faults: Faults)
    ensures Survivors(a + b, faults) == Survivors(a, faults) + Survivors(b, faults)
  {
    if a == [] {
      assert a + b == b;
    } else {
      SurvivorsConcat(a[1..], b, faults);
      assert (a + b)[1..] == a[1..] + b && (a + b)[0] == a[0];
      Associates(Handled(a[0], faults(a[0])), Survivors(a[1..], faults), Survivors(b, faults));
    }
  }

  lemma {:induction false} SurvivorsFewer(a: seq<Entry>, faults: Faults, x: nat)
    ensures |Survivors(a, faults)| <= |a|
    ensures Waits(Survivors(a, faults), x) ==> Waits(a, x)
  {
    if a != [] {
      SurvivorsFewer(a[1..], faults, x);
      WaitsConcat(Handled(a[0], faults(a[0])), Survivors(a[1..], faults), x);
      WaitsConcat([a[0]], a[1..], x);
      assert a == [a[0]] + a[1..];
      assert Waits(Handled(a[0], faults(a[0])), x) ==> a[0].id == x && a[0] in [a[0]];
    }
  }

  /** Known survivors have used one more attempt and are still below the limit. */
  lemma {:induction false} SurvivorsAge(a: seq<Entry>, faults: Faults, r: nat)
    requires forall e :: e in a ==> Known(e) && r <= e.attempts
    ensures forall e :: e in Survivors(a, faults) ==> r < e.attempts
    ensures r + 1 >= MaxAttempts ==> Survivors(a, faults) == []
  {
    if a != [] {
      SurvivorsAge(a[1..], faults, r);
    }
  }

  lemma {:induction false} PassFewer(p: seq<Entry>, faults: Faults, x: nat)
    ensures Waits(Pass(p, faults), x) ==> Waits(p, x)
  {
    var a, b := Take(p, BatchSize), Rest(p, BatchSize);
    assert p == a + b;
    SurvivorsFewer(a, faults, x);
    WaitsConcat(Survivors(a, faults), b, x);
    WaitsConcat(a, b, x);
  }

  lemma {:induction false} GoneStaysGone(pending: seq<Entry>, rounds: seq<Round>, x: nat)
    requires !Waits(pending, x) && NeverArrives(rounds, x)
    ensures !Waits(After(pending, rounds), x)
    decreases |rounds|
  {
    if rounds != [] {
      PassFewer(pending, rounds[0].faults, x);
      WaitsConcat(Pass(pending, rounds[0].faults), rounds[0].arrivals, x);
      GoneStaysGone(Pass(pending, rounds[0].faults) + rounds[0].arrivals, rounds[1..], x);
    }
  }

  // -------------------------------------------------- what one pass leaves

  /** The event stays: an unknown kind always, a known one while its callback raises and it has attempts left. */
  predicate Stays(e: Entry, raises: bool) {
    e.kind !in {"completed", "failed", "awaiting_input"} || (raises && e.attempts + 1 < 10)
  }

  /** `out` holds the entries of `s` at the places `at`, in order, those before `n` with one attempt more. */
  ghost predicate Picks(s: seq<Entry>, n: nat, at: seq<nat>, out: seq<Entry>) {
    && |at| == |out|
    && (forall j :: 0 <= j < |at| ==> at[j] < |s|)
    && (forall j, k :: 0 <= j < k < |at| ==> at[j] < at[k])
    && (forall j :: 0 <= j < |at| ==>
          out[j] == s[at[j]].(attempts := s[at[j]].attempts + if at[j] < n then 1 else 0))
  }

  lemma {:induction false} PicksLonger(s: seq<Entry>, e: Entry, at: seq<nat>, out: seq<Entry>)
    requires Picks(s, |s|, at, out)
    ensures Picks(s + [e], |s| + 1, at, out)
    ensures Picks(s + [e], |s| + 1, at + [|s|], out + [e.(attempts := e.attempts + 1)])
  {
    assert forall j :: 0 <= j < |at| ==> (s + [e])[at[j]] == s[at[j]];
  }

  /** The places of the events of a batch that stay. */
  function Places(batch: seq<Entry>, faults: Faults): seq<nat> {
    if batch == [] then [] else
      var last := |batch| - 1;
      Places(batch[..last], faults) + if Stays(batch[last], faults(batch[last])) then [last] else []
  }

  lemma {:induction false} SurvivorsPicked(batch: seq<Entry>, faults: Faults)
    ensures Picks(batch, |batch|, Places(batch, faults), Survivors(batch, faults))
  {
    if batch != [] {
      var last := |batch| - 1;
      var front, e := batch[..last], batch[last];
      SurvivorsPicked(front, faults);
      HandledOneMore(front, e, faults);
      HandledStays(e, faults(e));
      assert batch == front + [e];
      PicksLonger(front, e, Places(front, faults), Survivors(front, faults));
    }
  }

  lemma {:induction false} PlacesExactly(batch: seq<Entry>, faults: Faults, i: nat)
    ensures i in Places(batch, faults) <==> i < |batch| && Stays(batch[i], faults(batch[i]))
  {
    if batch != [] {
      var last := |batch| - 1;
      PlacesExactly(batch[..last], faults, i);
    }
  }

  /** What is behind the batch is picked as it is. */
  lemma {:induction false} PicksRest(batch: seq<Entry>, rest: seq<Entry>, n: nat, at: seq<nat>, out: seq<Entry>,
                                     back: seq<nat>)
    requires Picks(batch, |batch|, at, out) && |batch| <= n && (rest != [] ==> |batch| == n)
    requires |back| == |rest| && forall j :: 0 <= j < |rest| ==> back[j] == |batch| + j
    ensures Picks(batch + rest, n, at + back, out + rest)
  {
    var s := batch + rest;
    assert forall j :: 0 <= j < |at| ==> s[at[j]] == batch[at[j]];
  }

  /** One pass, event by event: of the first fifty exactly those that stay are left, each with one attempt more,
      everything behind is untouched, and the order is kept. */
  lemma {:induction false} PassLeavesExactly(pending: seq<Entry>, faults: Faults) returns (at: seq<nat>)
    ensures Picks(pending, 50, at, Pass(pending, faults))
    ensures forall i :: 0 <= i < |pending| ==> (i in at <==> i >= 50 || Stays(pending[i], faults(pending[i])))
  {
    var batch, rest := Take(pending, BatchSize), Rest(pending, BatchSize);
    assert pending == batch + rest;
    var back := seq(|rest|, i requires 0 <= i < |rest| => |batch| + i);
    SurvivorsPicked(batch, faults);
    PicksRest(batch, rest, 50, Places(batch, faults), Survivors(batch, faults), back);
    at := Places(batch, faults) + back;
    forall i | 0 <= i < |pending|
      ensures i in at <==> i >= 50 || Stays(pending[i], faults(pending[i]))
    {
      PlacesExactly(batch, faults, i);
      if i >= |batch| {
        assert back[i - |batch|] == i;
      }
    }
  }

  // ------------------------------------------------------ the known sublist

  function KnownOnly(s: seq<Entry>): seq<Entry> {
    if s == [] then [] else (if Known(s[0]) then [s[0]] else []) + KnownOnly(s[1..])
  }

  function UnknownCount(s: seq<Entry>): nat {
    if s == [] then 0 else (if Known(s[0]) then 0 else 1) + UnknownCount(s[1..])
  }

  lemma {:induction false} KnownConcat(a: seq<Entry>, b: seq<Entry>)
    ensures KnownOnly(a + b) == KnownOnly(a) + KnownOnly(b)
    ensures UnknownCount(a + b) == UnknownCount(a) + UnknownCount(b)
  {
    if a == [] {
      assert a + b == b;
    } else {
      KnownConcat(a[1..], b);
      assert (a + b)[1..] == a[1..] + b && (a + b)[0] == a[0];
      Associates(if Known(a[0]) then [a[0]] else [], KnownOnly(a[1..]), KnownOnly(b));
    }
  }

  lemma {:induction false} KnownLength(s: seq<Entry>)
    ensures |KnownOnly(s)| + UnknownCount(s) == |s|
    ensures forall e :: e in KnownOnly(s) <==> e in s && Known(e)
  {
    if s != [] {
      KnownLength(s[1..]);
    }
  }

  lemma {:induction false} LastKnown(ahead: seq<Entry>, e: Entry)
    requires Known(e)
    ensures KnownOnly(ahead + [e]) == KnownOnly(ahead) + [e] && UnknownCount(ahead + [e]) == UnknownCount(ahead)
  {
    KnownConcat(ahead, [e]);
    assert [e][1..] == [];
  }

  lemma {:induction false} KnownOfSurvivors(a: seq<Entry>, faults: Faults)
    ensures KnownOnly(Survivors(a, faults)) == Survivors(KnownOnly(a), faults)
    ensures UnknownCount(Survivors(a, faults)) == UnknownCount(a)
  {
    if a != [] {
      KnownOfSurvivors(a[1..], faults);
      var h := Handled(a[0], faults(a[0]));
      KnownConcat(h, Survivors(a[1..], faults));
      assert h != [] ==> h[1..] == [];
      SurvivorsConcat(if Known(a[0]) then [a[0]] else [], KnownOnly(a[1..]), faults);
      assert [a[0]][1..] == [];
      assert Survivors([a[0]], faults) == h;
    }
  }

  /** On the known events alone a pass also handles a prefix: every known one in the batch. */
  lemma {:induction false} PassOnKnown(p: seq<Entry>, faults: Faults) returns (front: seq<Entry>, back: seq<Entry>)
    ensures KnownOnly(p) == front + back
    ensures KnownOnly(Pass(p, faults)) == Survivors(front, faults) + back
    ensures UnknownCount(Pass(p, faults)) == UnknownCount(p)
    ensures back == [] || |front| + UnknownCount(p) >= BatchSize
  {
    var a, b := Take(p, BatchSize), Rest(p, BatchSize);
    assert p == a + b;
    KnownConcat(a, b);
    KnownConcat(Survivors(a, faults), b);
    KnownOfSurvivors(a, faults);
    KnownLength(a);
    front, back := KnownOnly(a), KnownOnly(b);
  }

  // -------------------------------------------------------------- the bound

  /** How many batches of `c` it takes to cover `n`. */
  function Batches(n: nat, c: nat): nat
    requires c > 0
  {
    if n == 0 then 0 else 1 + Batches(if n <= c then 0 else n - c, c)
  }

  lemma {:induction false} BatchesMonotone(m: nat, n: nat, c: nat)
    requires c > 0 && m <= n
    ensures Batches(m, c) <= Batches(n, c)
  {
    if m > c {
      BatchesMonotone(m - c, n - c, c);
    }
  }

  lemma {:induction false} BatchesOfPosition(p: nat, c: nat)
    requires c > 0
    ensures Batches(p + 1, c) == p / c + 1
    decreases p
  {
    if p >= c {
      BatchesOfPosition(p - c, c);
      QuotientDrops(p, c);
    } else {
      assert p / c == 0;
    }
  }

  /** What a pass over `a + b` leaves of `b`. */
  function Behind(a: seq<Entry>, b: seq<Entry>, faults: Faults): seq<Entry> {
    var room := if |a| >= BatchSize then 0 else BatchSize - |a|;
    Survivors(Take(b, room), faults) + Rest(b, room)
  }

  lemma {:induction false} FullSplits(a: seq<Entry>, b: seq<Entry>, faults: Faults)
    requires |a| >= BatchSize
    ensures Pass(a + b, faults) == Pass(a, faults) + Behind(a, b, faults)
  {
    assert Take(a + b, BatchSize) == Take(a, BatchSize);
    assert Rest(a + b, BatchSize) == Rest(a, BatchSize) + b;
    assert Behind(a, b, faults) == b;
    Associates(Survivors(Take(a, BatchSize), faults), Rest(a, BatchSize), b);
  }

  lemma {:induction false} RoomSplits(a: seq<Entry>, b: seq<Entry>, faults: Faults)
    requires |a| < BatchSize
    ensures Pass(a + b, faults) == Pass(a, faults) + Behind(a, b, faults)
  {
    var b1, b2 := Take(b, BatchSize - |a|), Rest(b, BatchSize - |a|);
    assert Take(a + b, BatchSize) == a + b1 && Rest(a + b, BatchSize) == b2;
    SurvivorsConcat(a, b1, faults);
    assert Pass(a, faults) == Survivors(a, faults);
    Associates(Survivors(a, faults), Survivors(b1, faults), b2);
  }

  lemma {:induction false} PassSplits(a: seq<Entry>, b: seq<Entry>, faults: Faults)
    ensures Pass(a + b, faults) == Pass(a, faults) + Behind(a, b, faults)
  {
    if |a| >= BatchSize {
      FullSplits(a, b, faults);
    } else {
      RoomSplits(a, b, faults);
    }
  }

  lemma {:induction false} BehindFewer(a: seq<Entry>, b: seq<Entry>, faults: Faults, x: nat)
    ensures Waits(Behind(a, b, faults), x) ==> Waits(b, x)
  {
    var room := if |a| >= BatchSize then 0 else BatchSize - |a|;
    assert b == Take(b, room) + Rest(b, room);
    SurvivorsFewer(Take(b, room), faults, x);
    WaitsConcat(Survivors(Take(b, room), faults), Rest(b, room), x);
    WaitsConcat(Take(b, room), Rest(b, room), x);
  }

  /** A single event behind `a` is handled when there is room for it and untouched otherwise. */
  lemma {:induction false} BehindOne(a: seq<Entry>, e: Entry, faults: Faults)
    ensures Behind(a, [e], faults) == if |a| < BatchSize then Handled(e, faults(e)) else [e]
  {
    assert [e][1..] == [];
    assert Survivors([e], faults) == Handled(e, faults(e));
  }

  /** An event among the unprocessed ones: what is older, itself, what is younger. */
  ghost predicate Splits(pending: seq<Entry>, ahead: seq<Entry>, e: Entry, younger: seq<Entry>) {
    pending == ahead + [e] + younger && !Waits(ahead, e.id) && !Waits(younger, e.id)
  }

  lemma {:induction false} RoundShape(ahead: seq<Entry>, e: Entry, younger: seq<Entry>, round: Round)
    ensures Pass(ahead + [e] + younger, round.faults) + round.arrivals ==
      Pass(ahead, round.faults) + Behind(ahead, [e], round.faults)
      + (Behind(ahead + [e], younger, round.faults) + round.arrivals)
    ensures Pass(ahead + [e], round.faults) == Pass(ahead, round.faults) + Behind(ahead, [e], round.faults)
  {
    PassSplits(ahead + [e], younger, round.faults);
    PassSplits(ahead, [e], round.faults);
  }

  /** The event left in this round, so it waits no more. */
  lemma {:induction false} LeftThisRound(pending: seq<Entry>, ahead: seq<Entry>, e: Entry, younger: seq<Entry>,
                                         round: Round)
    requires Splits(pending, ahead, e, younger) && !Waits(round.arrivals, e.id)
    requires Behind(ahead, [e], round.faults) == []
    ensures !Waits(Pass(pending, round.faults) + round.arrivals, e.id)
  {
    var f := round.faults;
    var front, back := Pass(ahead, f), Behind(ahead + [e], younger, f) + round.arrivals;
    RoundShape(ahead, e, younger, round);
    NoneOfThem(ahead, e, younger, round);
    assert front + [] == front;
    WaitsConcat(front, back, e.id);
  }

  lemma {:induction false} NoneOfThem(ahead: seq<Entry>, e: Entry, younger: seq<Entry>, round: Round)
    requires !Waits(ahead, e.id) && !Waits(younger, e.id) && !Waits(round.arrivals, e.id)
    ensures !Waits(Pass(ahead, round.faults), e.id)
    ensures !Waits(Behind(ahead + [e], younger, round.faults) + round.arrivals, e.id)
  {
    PassFewer(ahead, round.faults, e.id);
    BehindFewer(ahead + [e], younger, round.faults, e.id);
    WaitsConcat(Behind(ahead + [e], younger, round.faults), round.arrivals, e.id);
  }

  /** The event is still there, behind what the pass left of the older ones. */
  lemma {:induction false} StillThere(pending: seq<Entry>, ahead: seq<Entry>, e: Entry, younger: seq<Entry>,
                                      round: Round)
    returns (e': Entry)
    requires Splits(pending, ahead, e, younger) && !Waits(round.arrivals, e.id)
    requires Behind(ahead, [e], round.faults) != []
    ensures e'.id == e.id && e'.kind == e.kind && Behind(ahead, [e], round.faults) == [e']
    ensures Pass(ahead + [e], round.faults) == Pass(ahead, round.faults) + [e']
    ensures Splits(Pass(pending, round.faults) + round.arrivals, Pass(ahead, round.faults), e',
                   Behind(ahead + [e], younger, round.faults) + round.arrivals)
  {
    BehindOne(ahead, e, round.faults);
    e' := Behind(ahead, [e], round.faults)[0];
    assert Behind(ahead, [e], round.faults) == [e'];
    RoundShape(ahead, e, younger, round);
    NoneOfThem(ahead, e, younger, round);
  }

  /** The core of the bound. `a` is the group of known events at the front, which every pass handles in
      full and which has used `r` attempts; `b` is what comes behind it, up to and including `e`. */
  lemma {:induction false} GroupDrains(pending: seq<Entry>, ahead: seq<Entry>, e: Entry, younger: seq<Entry>,
                                       a: seq<Entry>, b: seq<Entry>, r: nat, c: nat, rounds: seq<Round>)
    requires Splits(pending, ahead, e, younger) && Known(e) && NeverArrives(rounds, e.id)
    requires KnownOnly(ahead + [e]) == a + b && c > 0 && UnknownCount(ahead + [e]) + c == BatchSize
    requires |a| <= c && r < MaxAttempts && forall g :: g in a ==> r <= g.attempts
    requires |rounds| >= MaxAttempts - r + MaxAttempts * Batches(|b|, c)
    ensures !Waits(After(pending, rounds), e.id)
    decreases |rounds|
  {
    var f := rounds[0].faults;
    var next := Pass(pending, f) + rounds[0].arrivals;
    if Behind(ahead, [e], f) == [] {
      LeftThisRound(pending, ahead, e, younger, rounds[0]);
      GoneStaysGone(next, rounds[1..], e.id);
    } else {
      var younger' := Behind(ahead + [e], younger, f) + rounds[0].arrivals;
      var e' := StillThere(pending, ahead, e, younger, rounds[0]);
      var a', b' := GroupRound(ahead + [e], a, b, r, c, f);
      BatchesMonotone(|b'|, |b|, c);
      if r + 1 < MaxAttempts {
        GroupDrains(next, Pass(ahead, f), e', younger', a', b', r + 1, c, rounds[1..]);
      } else {
        NextGroup(Pass(ahead, f), e', b', c);
        GroupDrains(next, Pass(ahead, f), e', younger', Take(b', c), Rest(b', c), 0, c, rounds[1..]);
      }
    }
  }

  /** Once the front group is gone, what was behind it starts with a full group, or is one. */
  lemma {:induction false} NextGroup(ahead: seq<Entry>, e: Entry, b: seq<Entry>, c: nat)
    requires Known(e) && c > 0 && KnownOnly(ahead + [e]) == b
    ensures b == Take(b, c) + Rest(b, c) && |Take(b, c)| <= c && Batches(|b|, c) == 1 + Batches(|Rest(b, c)|, c)
  {
    LastKnown(ahead, e);
  }

  lemma {:induction false} GroupRound(upto: seq<Entry>, a: seq<Entry>, b: seq<Entry>, r: nat, c: nat, faults: Faults)
    returns (a': seq<Entry>, b': seq<Entry>)
    requires KnownOnly(upto) == a + b && UnknownCount(upto) + c == BatchSize
    requires |a| <= c && forall e :: e in a ==> r <= e.attempts
    ensures KnownOnly(Pass(upto, faults)) == a' + b' && UnknownCount(Pass(upto, faults)) == UnknownCount(upto)
    ensures |a'| <= |a| && |b'| <= |b|
    ensures forall e :: e in a' ==> r < e.attempts
    ensures r + 1 >= MaxAttempts ==> a' == []
  {
    var front, back := PassOnKnown(upto, faults);
    var middle := front[|a|..];
    PrefixSplits(a, b, front, back);
    a', b' := Survivors(a, faults), Survivors(middle, faults) + back;
    SurvivorsConcat(a, middle, faults);
    Associates(Survivors(a, faults), Survivors(middle, faults), back);
    SurvivorsFewer(a, faults, 0);
    SurvivorsFewer(middle, faults, 0);
    KnownLength(upto);
    assert forall e :: e in a ==> e in a + b;
    SurvivorsAge(a, faults, r);
  }

  lemma {:induction false} Associates(a: seq<Entry>, b: seq<Entry>, c: seq<Entry>)
    ensures a + b + c == a + (b + c)
  {
  }

  lemma {:induction false} PrefixSplits(a: seq<Entry>, b: seq<Entry>, front: seq<Entry>, back: seq<Entry>)
    requires a + b == front + back && |a| <= |front|
    ensures front == a + front[|a|..] && b == front[|a|..] + back
  {
    assert a == (a + b)[..|a|] && b == (a + b)[|a|..];
  }

  predicate OnlyAt(pending: seq<Entry>, p: nat) {
    p < |pending| && forall i :: 0 <= i < |pending| && i != p ==> pending[i].id != pending[p].id
  }

  /** Bounded fairness. An event of a known kind at position `p`, with `u` < 50 unknown kinds ahead of it,
      is gone after 10 * ((p - u) / (50 - u) + 1) passes whatever the callbacks do and whatever arrives
      meanwhile; with none ahead that is 10 * (p / 50 + 1). */
  lemma {:induction false} LeavesInTime(pending: seq<Entry>, p: nat, rounds: seq<Round>)
    requires OnlyAt(pending, p) && NeverArrives(rounds, pending[p].id)
    requires pending[p].kind in {"completed", "failed", "awaiting_input"} && UnknownCount(pending[..p]) < 50
    requires |rounds| >= 10 * ((p - UnknownCount(pending[..p])) / (50 - UnknownCount(pending[..p])) + 1)
    ensures !Waits(After(pending, rounds), pending[p].id)
  {
    var u, ahead, e := UnknownCount(pending[..p]), pending[..p], pending[p];
    var c := BatchSize - u;
    LastKnown(ahead, e);
    KnownLength(ahead);
    BatchesOfPosition(p - u, c);
    FirstGroup(pending, ahead, e, pending[p + 1..], c, rounds);
  }

  lemma {:induction false} FirstGroup(pending: seq<Entry>, ahead: seq<Entry>, e: Entry, younger: seq<Entry>,
                                      c: nat, rounds: seq<Round>)
    requires Splits(pending, ahead, e, younger) && Known(e) && NeverArrives(rounds, e.id)
    requires c > 0 && UnknownCount(ahead + [e]) + c == BatchSize
    requires |rounds| >= MaxAttempts * Batches(|KnownOnly(ahead + [e])|, c)
    ensures !Waits(After(pending, rounds), e.id)
  {
    var known := KnownOnly(ahead + [e]);
    LastKnown(ahead, e);
    assert known == Take(known, c) + Rest(known, c);
    GroupDrains(pending, ahead, e, younger, Take(known, c), Rest(known, c), 0, c, rounds);
  }

  predicate Blocked(ahead: seq<Entry>, e: Entry) {
    !Known(e) || UnknownCount(ahead) >= BatchSize
  }

  lemma {:induction false} BlockedRound(ahead: seq<Entry>, e: Entry, younger: seq<Entry>, round: Round)
    returns (e': Entry, younger': seq<Entry>)
    requires Blocked(ahead, e)
    ensures Pass(ahead + [e] + younger, round.faults) + round.arrivals == Pass(ahead, round.faults) + [e'] + younger'
    ensures e'.id == e.id && Blocked(Pass(ahead, round.faults), e')
  {
    var f := round.faults;
    RoundShape(ahead, e, younger, round);
    BehindOne(ahead, e, f);
    KnownLength(ahead);
    var _, _ := PassOnKnown(ahead, f);
    e' := if |ahead| < BatchSize then Handled(e, f(e))[0] else e;
    younger' := Behind(ahead + [e], younger, f) + round.arrivals;
  }

  /** With one of the two obstacles an event outlasts every history. */
  lemma {:induction false} NeverLeaves(ahead: seq<Entry>, e: Entry, younger: seq<Entry>, rounds: seq<Round>)
    requires Blocked(ahead, e)
    ensures Waits(After(ahead + [e] + younger, rounds), e.id)
    decreases |rounds|
  {
    if rounds == [] {
      assert e in ahead + [e] + younger;
    } else {
      var e', younger' := BlockedRound(ahead, e, younger, rounds[0]);
      NeverLeaves(Pass(ahead, rounds[0].faults), e', younger', rounds[1..]);
    }
  }

  /** The condition of the bound is exact: an event of an unknown kind, or one with fifty of them ahead, would
      stay in the outbox through every history. The table's check constraint keeps such kinds out, so under
      that schema the bound holds with none ahead. */
  lemma {:induction false} OtherwiseStuckForever(pending: seq<Entry>, p: nat, rounds: seq<Round>)
    requires p < |pending|
    requires pending[p].kind !in {"completed", "failed", "awaiting_input"} || UnknownCount(pending[..p]) >= 50
    ensures Waits(After(pending, rounds), pending[p].id)
  {
    assert pending == pending[..p] + [pending[p]] + pending[p + 1..];
    NeverLeaves(pending[..p], pending[p], pending[p + 1..], rounds);
  }

  // ------------------------------------------------------------- the drain loop

  datatype RunState = Active | Completed | Failed | Cancelled

  predicate Exhausts(e: Entry, faults: Faults) {
    Known(e) && faults(e) && e.attempts + 1 >= MaxAttempts
  }

  /** The events of a batch that leave it by running out of attempts. */
  function GivenUp(batch: seq<Entry>, faults: Faults): seq<Entry> {
    if batch == [] then [] else (if Exhausts(batch[0], faults) then [batch[0]] else []) + GivenUp(batch[1..], faults)
  }

  lemma {:induction false} GivenUpConcat(a: seq<Entry>, b: seq<Entry>, faults: Faults)
    ensures GivenUp(a + b, faults) == GivenUp(a, faults) + GivenUp(b, faults)
  {
    if a == [] {
      assert a + b == b;
    } else {
      GivenUpConcat(a[1..], b, faults);
      assert (a + b)[1..] == a[1..] + b && (a + b)[0] == a[0];
      Associates(if Exhausts(a[0], faults) then [a[0]] else [], GivenUp(a[1..], faults), GivenUp(b, faults));
    }
  }

  /** The events of a drain's report. */
  function Logged(log: seq<(Entry, Option<RunState>)>): seq<Entry> {
    seq(|log|, i requires 0 <= i < |log| => log[i].0)
  }

  predicate NoneActive(log: seq<(Entry, Option<RunState>)>) {
    forall i :: 0 <= i < |log| && log[i].1.Some? ==> !log[i].1.value.Active?
  }

  lemma {:induction false} LoggedAppend(log: seq<(Entry, Option<RunState>)>, e: Entry, state: Option<RunState>)
    ensures Logged(log + [(e, state)]) == Logged(log) + [e]
    ensures NoneActive(log) && (state.Some? ==> !state.value.Active?) ==> NoneActive(log + [(e, state)])
  {
  }

  lemma {:induction false} HandledStays(e: Entry, raises: bool)
    ensures Handled(e, raises) == if Stays(e, raises) then [e.(attempts := e.attempts + 1)] else []
  {
  }

  lemma {:induction false} RunsOneMore(done: seq<Entry>, e: Entry, faults: Faults, effect: Effect,
                                       runs: map<string, RunState>)
    ensures RunsAfter(done + [e], faults, effect, runs) ==
      RunsAfterOne(e, faults(e), effect, RunsAfter(done, faults, effect, runs))
  {
    assert (done + [e])[..|done|] == done;
  }

  lemma {:induction false} HandledOneMore(done: seq<Entry>, e: Entry, faults: Faults)
    ensures Survivors(done + [e], faults) == Survivors(done, faults) + Handled(e, faults(e))
    ensures GivenUp(done + [e], faults) ==
      GivenUp(done, faults) + if Known(e) && faults(e) && e.attempts + 1 >= MaxAttempts then [e] else []
  {
    SurvivorsConcat(done, [e], faults);
    GivenUpConcat(done, [e], faults);
    assert [e][1..] == [];
  }

  type Effect = (Entry, map<string, RunState>) -> map<string, RunState>

  /** The run rows after the turn of one event: a known one has its effect, and one that is given up fails its
      run if that is still active. */
  function RunsAfterOne(e: Entry, raises: bool, effect: Effect, runs: map<string, RunState>): map<string, RunState> {
    var mid := if Known(e) then effect(e, runs) else runs;
    if raises && !Stays(e, raises) && e.run in mid && mid[e.run].Active? then mid[e.run := Failed] else mid
  }

  function RunsAfter(batch: seq<Entry>, faults: Faults, effect: Effect, runs: map<string, RunState>):
    map<string, RunState>
  {
    if batch == [] then runs else
      var e := batch[|batch| - 1];
      RunsAfterOne(e, faults(e), effect, RunsAfter(batch[..|batch| - 1], faults, effect, runs))
  }

  /** When the callbacks leave the run rows alone, a pass fails exactly the active runs that have an event in the
      batch whose tenth attempt raises, and changes no other run. */
  lemma {:induction false} GivingUpFailsTheRun(batch: seq<Entry>, faults: Faults, effect: Effect,
                                               runs: map<string, RunState>, r: string)
    requires r in runs && forall e, m :: effect(e, m) == m
    ensures r in RunsAfter(batch, faults, effect, runs)
    ensures RunsAfter(batch, faults, effect, runs)[r] ==
      if runs[r].Active? && exists i :: 0 <= i < |batch| && batch[i].run == r && faults(batch[i])
                                        && !Stays(batch[i], true)
      then Failed else runs[r]
  {
    if batch != [] {
      var last := |batch| - 1;
      GivingUpFailsTheRun(batch[..last], faults, effect, runs, r);
      assert forall i :: 0 <= i < last ==> batch[..last][i] == batch[i];
    }
  }

  class Drainer {
    var pending: seq<Entry>
    var runs: map<string, RunState>

    /** The callback of one event returned or raised; `runs` already holds what it did to the run rows. */
    method Finalise(e: Entry, raised: bool) returns (left: seq<Entry>, gaveUp: bool)
      modifies this`runs
      ensures left == if Stays(e, raised) then [e.(attempts := e.attempts + 1)] else []
      ensures gaveUp <==> !Stays(e, raised) && raised
      ensures runs ==
        if gaveUp && e.run in old(runs) && old(runs)[e.run].Active? then old(runs)[e.run := Failed] else old(runs)
    {
      left, gaveUp := [e.(attempts := e.attempts + 1)], false;
      if !Known(e) {
        return;
      }
      if !raised {
        left := [];
      } else if e.attempts + 1 >= MaxAttempts {
        if e.run in runs && runs[e.run].Active? {
          runs := runs[e.run := Failed];
        }
        left, gaveUp := [], true;
      }
    }

    /** The turn of one event. */
    method Dispatch(e: Entry, raises: bool, effect: Effect) returns (left: seq<Entry>, gaveUp: bool)
      modifies this`runs
      ensures left == Handled(e, raises)
      ensures gaveUp <==> Known(e) && raises && e.attempts + 1 >= MaxAttempts
      ensures runs == RunsAfterOne(e, raises, effect, old(runs))
      ensures gaveUp && e.run in runs ==> !runs[e.run].Active?
    {
      HandledStays(e, raises);
      if Known(e) {
        runs := effect(e, runs);
      }
      left, gaveUp := Finalise(e, raises);
    }

    /** One pass. `effect` is whatever the callback of an event does to the run rows. An event given up is
        reported with the state its run was left in. */
    method DrainDispatchEvents(faults: Faults, effect: Effect)
      returns (log: seq<(Entry, Option<RunState>)>)
      modifies this
      ensures pending == Pass(old(pending), faults)
      ensures runs == RunsAfter(Take(old(pending), 50), faults, effect, old(runs))
      ensures GivenUp(Take(old(pending), BatchSize), faults) == Logged(log)
      ensures NoneActive(log)
    {
      var kept;
      kept, log := DrainBatch(Take(pending, BatchSize), faults, effect);
      pending := kept + Rest(pending, BatchSize);
    }

    method DrainBatch(events: seq<Entry>, faults: Faults, effect: Effect)
      returns (kept: seq<Entry>, log: seq<(Entry, Option<RunState>)>)
      modifies this`runs
      ensures kept == Survivors(events, faults)
      ensures runs == RunsAfter(events, faults, effect, old(runs))
      ensures GivenUp(events, faults) == Logged(log) && NoneActive(log)
    {
      kept, log := [], [];
      ghost var done: seq<Entry> := [];
      for i := 0 to |events|
        invariant done == events[..i]
        invariant kept == Survivors(done, faults) && runs == RunsAfter(done, faults, effect, old(runs))
        invariant GivenUp(done, faults) == Logged(log) && NoneActive(log)
      {
        var e := events[i];
        HandledOneMore(done, e, faults);
        RunsOneMore(done, e, faults, effect, old(runs));
        var left, gaveUp := Dispatch(e, faults(e), effect);
        kept := kept + left;
        var state := if e.run in runs then Some(runs[e.run]) else None;
        LoggedAppend(log, e, state);
        log := if gaveUp then log + [(e, state)] else log;
        done := done + [e];
      }
      assert events[..|events|] == events;
    }
  }
}
