/** Reachability in a finite directed graph given as a set of edges. */
module Reachability {

  type Edges = set<(string, string)>

  predicate Path(es: Edges, p: seq<string>) {
    |p| >= 2 && forall i :: 0 <= i < |p| - 1 ==> (p[i], p[i + 1]) in es
  }

  /** A non-empty walk leads from `a` to `b`. */
  ghost predicate Reaches(es: Edges, a: string, b: string) {
    exists p :: Path(es, p) && p[0] == a && p[|p| - 1] == b
  }

  ghost predicate ReachesOrIs(es: Edges, a: string, b: string) {
    a == b || Reaches(es, a, b)
  }

  lemma {:induction false} EdgeReaches(es: Edges, a: string, b: string)
    requires (a, b) in es
    ensures Reaches(es, a, b)
  {
    assert Path(es, [a, b]);
  }

  lemma {:induction false} ReachesTransitive(es: Edges, a: string, b: string, c: string)
    requires ReachesOrIs(es, a, b) && ReachesOrIs(es, b, c)
    ensures ReachesOrIs(es, a, c)
    ensures Reaches(es, a, b) || Reaches(es, b, c) ==> Reaches(es, a, c)
  {
    if Reaches(es, a, b) && Reaches(es, b, c) {
      var p :| Path(es, p) && p[0] == a && p[|p| - 1] == b;
      var q :| Path(es, q) && q[0] == b && q[|q| - 1] == c;
      var r := p + q[1..];
      forall i | 0 <= i < |r| - 1
        ensures (r[i], r[i + 1]) in es
      {
        if i >= |p| - 1 {
          assert r[i] == q[i - |p| + 1] && r[i + 1] == q[i - |p| + 2];
        }
      }
      assert Path(es, r);
    }
  }

  lemma {:induction false} PathTail(es: Edges, p: seq<string>)
    requires Path(es, p) && |p| > 2
    ensures Path(es, p[1..])
  {
    forall i | 0 <= i < |p[1..]| - 1
      ensures (p[1..][i], p[1..][i + 1]) in es
    {
      assert (p[i + 1], p[i + 2]) in es;
    }
  }

  /** Numbered edges admit no cycle. */
  lemma {:induction false} RankedPathClimbs(es: Edges, rank: map<string, nat>, p: seq<string>)
    requires forall e :: e in es ==> e.0 in rank && e.1 in rank && rank[e.0] < rank[e.1]
    requires Path(es, p)
    ensures p[0] in rank && p[|p| - 1] in rank && rank[p[0]] < rank[p[|p| - 1]]
  {
    assert (p[0], p[1]) in es;
    if |p| > 2 {
      PathTail(es, p);
      RankedPathClimbs(es, rank, p[1..]);
    }
  }

  /** When every edge leads to a walk between the images of its ends, or to one image, so does every walk. */
  lemma {:induction false} PathImage(es: Edges, fs: Edges, image: string -> string, p: seq<string>)
    requires forall e :: e in es ==> ReachesOrIs(fs, image(e.0), image(e.1))
    requires Path(es, p)
    ensures ReachesOrIs(fs, image(p[0]), image(p[|p| - 1]))
  {
    assert (p[0], p[1]) in es;
    if |p| > 2 {
      PathTail(es, p);
      PathImage(es, fs, image, p[1..]);
      ReachesTransitive(fs, image(p[0]), image(p[1]), image(p[|p| - 1]));
    }
  }
}
