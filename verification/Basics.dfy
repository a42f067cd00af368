/** Types and facts shared by the models of the individual components. */
module Basics {

  datatype Option<+T> = None | Some(value: T)

  datatype Result<+R, +E> = Success(value: R) | Failure(error: E)

  type Byte = b: nat | b < 256

  /** A user of the platform. */
  datatype User = User(n: nat)

  /** A call under way on some server. */
  datatype Call = Call(n: nat)

  const SECOND := 1_000_000_000

  ghost predicate Distinct<T>(s: seq<T>) {
    forall i, j :: 0 <= i < j < |s| ==> s[i] != s[j]
  }

  function Elements<T(==)>(s: seq<T>): set<T> {
    set x | x in s
  }

  ghost function Pick<T>(s: set<T>): (x: T)
    requires s != {}
    ensures x in s
  {
    var x :| x in s;
    x
  }

  method Choose<T(==)>(s: set<T>) returns (x: T)
    requires s != {}
    ensures x in s
  {
    x :| x in s;
  }

  lemma {:induction false} SubsetSize<T>(a: set<T>, b: set<T>)
    requires a <= b
    ensures |a| <= |b|
    decreases |a|
  {
    if a != {} {
      var x := Pick(a);
      SubsetSize(a - {x}, b - {x});
    }
  }

  lemma MapSizeAdd<K, V>(m: map<K, V>, k: K, v: V)
    requires k !in m
    ensures |m[k := v]| == |m| + 1
  {
    assert m[k := v].Keys == m.Keys + {k};
  }

  lemma MapSizeRemove<K, V>(m: map<K, V>, k: K)
    requires k in m
    ensures |m - {k}| == |m| - 1
  {
    assert (m - {k}).Keys == m.Keys - {k};
  }

  /** The first n elements of `s` without those equal to `x`. */
  function Without<T(==)>(s: seq<T>, x: T, n: nat): seq<T>
    requires n <= |s|
  {
    if n == 0 then []
    else Without(s, x, n - 1) + (if s[n - 1] == x then [] else [s[n - 1]])
  }

  lemma {:induction false} WithoutElements<T(!new)>(s: seq<T>, x: T, n: nat)
    requires n <= |s|
    ensures forall y :: y in Without(s, x, n) <==> y in s[..n] && y != x
    ensures Distinct(s) ==> Distinct(Without(s, x, n))
  {
    if n > 0 {
      WithoutElements(s, x, n - 1);
      assert s[..n] == s[..n - 1] + [s[n - 1]];
      if Distinct(s) {
        assert s[n - 1] !in s[..n - 1];
      }
    }
  }

  ghost function Prefix<T>(s: seq<T>, p: nat): set<T>
    requires p <= |s|
  {
    set i | 0 <= i < p :: s[i]
  }

  lemma {:induction false} DistinctSize<T>(s: seq<T>, p: nat)
    requires Distinct(s) && p <= |s|
    ensures |Prefix(s, p)| == p
  {
    if p > 0 {
      DistinctSize(s, p - 1);
      assert Prefix(s, p) == Prefix(s, p - 1) + {s[p - 1]};
      assert s[p - 1] !in Prefix(s, p - 1);
    }
  }

  lemma {:induction false} SetToSeq<T(!new)>(s: set<T>) returns (q: seq<T>)
    ensures Distinct(q) && forall x :: x in q <==> x in s
    decreases |s|
  {
    if s == {} {
      q := [];
    } else {
      var x := Pick(s);
      q := SetToSeq(s - {x});
      q := q + [x];
    }
  }
}
