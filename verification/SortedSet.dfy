/** Redis sorted sets: members with integer scores, ordered by score and then by the member's text. */
module SortedSet {
  import opened Lexical

  ghost predicate Injective<K(!new)>(text: K -> string) {
    forall a: K, b: K :: text(a) == text(b) ==> a == b
  }

  predicate Before<K>(z: map<K, int>, text: K -> string, a: K, b: K)
    requires a in z && b in z
  {
    z[a] < z[b] || (z[a] == z[b] && Less(text(a), text(b)))
  }

  predicate IsLeast<K(!new)>(z: map<K, int>, text: K -> string, m: K) {
    m in z && forall x :: x in z && x != m ==> Before(z, text, m, x)
  }

  lemma {:induction false} LeastExists<K(!new)>(z: map<K, int>, text: K -> string)
    requires z != map[] && Injective(text)
    ensures exists m :: IsLeast(z, text, m)
    decreases |z|
  {
    var x :| x in z;
    var rest := z - {x};
    assert rest.Keys == z.Keys - {x};
    if rest == map[] {
      assert forall y :: y in z && y != x ==> y in rest;
      assert IsLeast(z, text, x);
    } else {
      LeastExists(rest, text);
      var m :| IsLeast(rest, text, m);
      LessTotal(text(x), text(m));
      assert forall y :: y in z && y != x ==> y in rest;
      if Before(z, text, m, x) {
        assert IsLeast(z, text, m);
      } else {
        forall y | y in z && y != x
          ensures Before(z, text, x, y)
        {
          if y != m && z[x] == z[m] && z[m] == z[y] {
            LessTransitive(text(x), text(m), text(y));
          }
        }
        assert IsLeast(z, text, x);
      }
    }
  }

  lemma {:induction false} LeastUnique<K(!new)>(z: map<K, int>, text: K -> string, a: K, b: K)
    requires IsLeast(z, text, a) && IsLeast(z, text, b)
    ensures a == b
  {
    if a != b {
      assert Before(z, text, a, b) && Before(z, text, b, a);
      LessAsymmetric(text(a), text(b));
    }
  }

  /** What ZPOPMIN takes from a non-empty set. */
  ghost function Least<K(!new)>(z: map<K, int>, text: K -> string): (m: K)
    requires z != map[] && Injective(text)
    ensures IsLeast(z, text, m)
  {
    LeastExists(z, text);
    var m :| IsLeast(z, text, m);
    m
  }

  /** What ZRANGEBYSCORE from -inf to `limit` keeps. */
  function UpTo<K>(z: map<K, int>, limit: int): map<K, int> {
    map m | m in z && z[m] <= limit :: z[m]
  }

  /** The members in order. */
  ghost function Ordered<K(!new)>(z: map<K, int>, text: K -> string): (r: seq<K>)
    requires Injective(text)
    ensures forall m :: m in r <==> m in z
    ensures forall i, j :: 0 <= i < j < |r| ==> r[i] != r[j]
    decreases |z|
  {
    if z == map[] then [] else
      var m := Least(z, text);
      assert (z - {m}).Keys == z.Keys - {m};
      [m] + Ordered(z - {m}, text)
  }
}
