/** Small datatypes and set lemmas shared by every module. */
module Prelude {

  datatype Option<+T> = None | Some(value: T)

  datatype Result<+T, +E> = Success(value: T) | Failure(error: E)

  /** A one-to-one image of `1..n` has exactly `n` elements. */
  lemma {:induction false} ImageSize<T>(f: nat -> T, n: nat, image: set<T>)
    requires image == set i: nat | 1 <= i <= n :: f(i)
    requires forall i: nat, j: nat :: 1 <= i < j <= n ==> f(i) != f(j)
    ensures |image| == n
  {
    if n == 0 {
      assert image == {};
    } else {
      var smaller := set i: nat | 1 <= i <= n - 1 :: f(i);
      ImageSize(f, n - 1, smaller);
      assert image == smaller + {f(n)};
      assert f(n) !in smaller;
    }
  }

  /** Taking one element out of a set lowers its size by one if the element was there. */
  lemma WithoutOne<T>(s: set<T>, x: T)
    ensures |s| == |s - {x}| + if x in s then 1 else 0
  {
    assert x in s ==> s == (s - {x}) + {x};
    assert x !in s ==> s == s - {x};
  }

  /** Subsets are no larger. */
  lemma SubsetSize<T>(a: set<T>, b: set<T>)
    requires a <= b
    ensures |a| <= |b|
  {
    assert b == a + (b - a);
  }

  /** Appending two elements and a rest, at once or one after the other. */
  lemma JoinTwo<T>(s: seq<T>, x: T, y: T, rest: seq<T>)
    ensures s + [x] + [y] + rest == s + ([x, y] + rest)
  {
  }

  lemma WithNothing<T>(s: seq<T>)
    ensures s + [] == s
  {
  }

  lemma WithLast<T>(s: seq<T>)
    requires s != []
    ensures s == s[..|s| - 1] + [s[|s| - 1]]
  {
  }
}
