/**
 Redis sorted sets: members with integer scores, listed by score and, between equal scores, by the
 byte order of the members.
 */
module SortedSets {
  import opened ExpiryPartition

  type ZSet = map<Member, int>

  // ---------------------------------------------------------------- the order

  /** Byte order of members; a proper prefix comes first. */
  predicate LexLess(a: Member, b: Member) {
    if b == [] then false
    else if a == [] then true
    else a[0] < b[0] || (a[0] == b[0] && LexLess(a[1..], b[1..]))
  }

  lemma {:induction false} LexTransitive(a: Member, b: Member, c: Member)
    requires LexLess(a, b) && LexLess(b, c)
    ensures LexLess(a, c)
  {
    if a != [] && a[0] == b[0] == c[0] {
      LexTransitive(a[1..], b[1..], c[1..]);
    }
  }

  lemma {:induction false} LexTotal(a: Member, b: Member)
    ensures !(LexLess(a, b) && LexLess(b, a))
    ensures a == b || LexLess(a, b) || LexLess(b, a)
  {
    if a != [] && b != [] {
      LexTotal(a[1..], b[1..]);
      assert a == [a[0]] + a[1..] && b == [b[0]] + b[1..];
    }
  }

  predicate Before(z: ZSet, a: Member, b: Member)
    requires a in z && b in z
  {
    z[a] < z[b] || (z[a] == z[b] && LexLess(a, b))
  }

  lemma BeforeTransitive(z: ZSet, a: Member, b: Member, c: Member)
    requires a in z && b in z && c in z
    requires Before(z, a, b) && Before(z, b, c)
    ensures Before(z, a, c)
  {
    if z[a] == z[b] == z[c] {
      LexTransitive(a, b, c);
    }
  }

  lemma BeforeTotal(z: ZSet, a: Member, b: Member)
    requires a in z && b in z
    ensures !(Before(z, a, b) && Before(z, b, a))
    ensures a == b || Before(z, a, b) || Before(z, b, a)
  {
    LexTotal(a, b);
  }

  predicate IsLeast(z: ZSet, keys: set<Member>, m: Member)
    requires keys <= z.Keys
  {
    m in keys && forall k :: k in keys && k != m ==> Before(z, m, k)
  }

  lemma {:induction false} LeastExists(z: ZSet, keys: set<Member>) returns (m: Member)
    requires keys <= z.Keys && keys != {}
    ensures IsLeast(z, keys, m)
    decreases |keys|
  {
    var k :| k in keys;
    var rest := keys - {k};
    if rest == {} {
      assert keys == {k};
      m := k;
    } else {
      var l := LeastExists(z, rest);
      BeforeTotal(z, k, l);
      if Before(z, k, l) {
        m := k;
        forall x | x in keys && x != k ensures Before(z, k, x) {
          if x != l { BeforeTransitive(z, k, l, x); }
        }
      } else {
        m := l;
      }
    }
  }

  lemma LeastUnique(z: ZSet, keys: set<Member>)
    requires keys <= z.Keys
    ensures forall a, b :: IsLeast(z, keys, a) && IsLeast(z, keys, b) ==> a == b
  {
    forall a, b | IsLeast(z, keys, a) && IsLeast(z, keys, b) ensures a == b {
      BeforeTotal(z, a, b);
    }
  }

  // ---------------------------------------------------------------- listings

  predicate Sorted(z: ZSet, s: seq<Member>) {
    (forall m :: m in s ==> m in z) && forall i, j :: 0 <= i < j < |s| ==> Before(z, s[i], s[j])
  }

  /** The keys from least to greatest. */
  function Ordered(z: ZSet, keys: set<Member>): seq<Member>
    requires keys <= z.Keys
    decreases |keys|
  {
    if keys == {} then []
    else
      assert exists m :: IsLeast(z, keys, m) by { var l := LeastExists(z, keys); }
      LeastUnique(z, keys);
      var m :| m in keys && IsLeast(z, keys, m);
      [m] + Ordered(z, keys - {m})
  }

  lemma {:induction false} OrderedFacts(z: ZSet, keys: set<Member>)
    requires keys <= z.Keys
    ensures Sorted(z, Ordered(z, keys))
    ensures forall m :: m in Ordered(z, keys) <==> m in keys
    ensures keys != {} ==> Ordered(z, keys) != [] && IsLeast(z, keys, Ordered(z, keys)[0])
    decreases |keys|
  {
    if keys != {} {
      var l := LeastExists(z, keys);
      LeastUnique(z, keys);
      assert Ordered(z, keys) == [l] + Ordered(z, keys - {l});
      OrderedFacts(z, keys - {l});
    }
  }

  /** A sorted listing is determined by its members, so `Ordered` is the only one. */
  lemma {:induction false} ListingUnique(z: ZSet, s: seq<Member>, t: seq<Member>)
    requires Sorted(z, s) && Sorted(z, t)
    requires forall m :: m in s <==> m in t
    ensures s == t
  {
    assert (s != [] ==> s[0] in t) && (t != [] ==> t[0] in s);
    if s != [] {
      FirstOfSorted(z, s, t);
      assert s == [s[0]] + s[1..] && t == [t[0]] + t[1..];
      forall m ensures m in s[1..] <==> m in t[1..] {
        NotRepeated(z, s);
        NotRepeated(z, t);
        assert m in s <==> m == s[0] || m in s[1..];
        assert m in t <==> m == t[0] || m in t[1..];
      }
      ListingUnique(z, s[1..], t[1..]);
    }
  }

  lemma NotRepeated(z: ZSet, s: seq<Member>)
    requires Sorted(z, s) && s != []
    ensures s[0] !in s[1..]
  {
    if s[0] in s[1..] {
      var j :| 0 <= j < |s[1..]| && s[1..][j] == s[0];
      assert Before(z, s[0], s[j + 1]);
      BeforeTotal(z, s[0], s[0]);
    }
  }

  lemma FirstOfSorted(z: ZSet, s: seq<Member>, t: seq<Member>)
    requires Sorted(z, s) && Sorted(z, t)
    requires forall m :: m in s <==> m in t
    requires s != [] && t != []
    ensures s[0] == t[0]
  {
    assert s[0] in t && t[0] in s;
    var j :| 0 <= j < |t| && t[j] == s[0];
    var i :| 0 <= i < |s| && s[i] == t[0];
    BeforeTotal(z, s[0], t[0]);
  }

  // ---------------------------------------------------------------- commands

  /** The members with a score of at most `bound`. */
  function Due(z: ZSet, bound: int): (r: set<Member>)
    ensures r <= z.Keys
  {
    set m | m in z && z[m] <= bound
  }

  function Take(s: seq<Member>, n: nat): seq<Member> {
    if |s| <= n then s else s[..n]
  }

  /** ZRANGEBYSCORE -inf bound LIMIT 0 n. */
  function Range(z: ZSet, bound: int, n: nat): seq<Member> {
    Take(Ordered(z, Due(z, bound)), n)
  }

  lemma RangeFacts(z: ZSet, bound: int, n: nat)
    ensures var r := Range(z, bound, n);
            && Sorted(z, r) && |r| <= n
            && (forall m :: m in r ==> m in Due(z, bound))
            && (Due(z, bound) != {} && n >= 1 ==> r != [] && IsLeast(z, Due(z, bound), r[0]))
  {
    OrderedFacts(z, Due(z, bound));
  }

  /** ZREM of each member in turn. */
  function Without(z: ZSet, ids: seq<Member>): ZSet {
    if ids == [] then z else Without(z, ids[..|ids| - 1]) - {ids[|ids| - 1]}
  }

  /** ZADD of each member in turn, all with one score. */
  function With(z: ZSet, ids: seq<Member>, score: int): ZSet {
    if ids == [] then z else With(z, ids[..|ids| - 1], score)[ids[|ids| - 1] := score]
  }

  lemma CommandStep(z: ZSet, ids: seq<Member>, m: Member, score: int)
    ensures Without(z, ids + [m]) == Without(z, ids) - {m}
    ensures With(z, ids + [m], score) == With(z, ids, score)[m := score]
  {
    assert (ids + [m])[..|ids|] == ids;
  }

  lemma {:induction false} WithoutFacts(z: ZSet, ids: seq<Member>)
    ensures Without(z, ids).Keys == z.Keys - (set m | m in ids)
    ensures forall m :: m in Without(z, ids) ==> Without(z, ids)[m] == z[m]
  {
    if ids != [] {
      var front := ids[..|ids| - 1];
      WithoutFacts(z, front);
      assert ids == front + [ids[|ids| - 1]];
    }
  }

  lemma {:induction false} WithFacts(z: ZSet, ids: seq<Member>, score: int)
    ensures With(z, ids, score).Keys == z.Keys + (set m | m in ids)
    ensures forall m :: m in With(z, ids, score) ==> With(z, ids, score)[m] == if m in ids then score else z[m]
  {
    if ids != [] {
      var front := ids[..|ids| - 1];
      WithFacts(z, front, score);
      assert ids == front + [ids[|ids| - 1]];
    }
  }

  lemma SortedDistinct(z: ZSet, s: seq<Member>)
    requires Sorted(z, s)
    ensures forall i, j :: 0 <= i < j < |s| ==> s[i] != s[j]
  {
    forall i, j | 0 <= i < j < |s| ensures s[i] != s[j] {
      BeforeTotal(z, s[i], s[j]);
    }
  }
}
