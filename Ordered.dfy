/** Ordering of keys. `std::map` iterates its keys in ascending order; the model
    keeps its maps as Dafny `map`s and recovers that order with `SortedSeq`. */
module Ordered {

  /** `lt` is irreflexive, transitive and total on distinct elements. */
  ghost predicate StrictTotalOrder<T(!new)>(lt: (T, T) -> bool) {
    && (forall x :: !lt(x, x))
    && (forall x, y, z :: lt(x, y) && lt(y, z) ==> lt(x, z))
    && (forall x, y :: x != y ==> lt(x, y) || lt(y, x))
  }

  /** Every element is below every later element. */
  predicate Increasing<T>(s: seq<T>, lt: (T, T) -> bool) {
    forall i, j :: 0 <= i < j < |s| ==> lt(s[i], s[j])
  }

  ghost predicate IsLeast<T>(m: T, s: set<T>, lt: (T, T) -> bool) {
    m in s && forall x :: x in s && x != m ==> lt(m, x)
  }

  lemma LeastExists<T(!new)>(s: set<T>, lt: (T, T) -> bool)
    requires s != {} && StrictTotalOrder(lt)
    ensures exists m :: IsLeast(m, s, lt)
  {
    var x :| x in s;
    if s == {x} {
      assert IsLeast(x, s, lt);
    } else {
      LeastExists(s - {x}, lt);
      var m :| IsLeast(m, s - {x}, lt);
      if lt(x, m) {
        forall y | y in s && y != x ensures lt(x, y) {
          if y != m { assert lt(m, y); }
        }
        assert IsLeast(x, s, lt);
      } else {
        assert IsLeast(m, s, lt);
      }
    }
  }

  /** The elements of `s` in ascending order: the order in which `std::map`
      visits its keys. */
  ghost function SortedSeq<T(!new)>(s: set<T>, lt: (T, T) -> bool): (r: seq<T>)
    requires StrictTotalOrder(lt)
    ensures Increasing(r, lt)
    ensures |r| == |s|
    ensures forall x :: x in r <==> x in s
    decreases s
  {
    if s == {} then []
    else
      LeastExists(s, lt);
      var m :| IsLeast(m, s, lt);
      [m] + SortedSeq(s - {m}, lt)
  }

  lemma {:induction false} IncreasingHeadBelowTail<T(!new)>(a: seq<T>, lt: (T, T) -> bool)
    requires StrictTotalOrder(lt) && Increasing(a, lt) && a != []
    ensures forall x :: x in a[1..] <==> x in a && x != a[0]
  {
    forall x | x in a[1..] ensures x != a[0] {
      var i :| 0 <= i < |a[1..]| && a[1..][i] == x;
      assert lt(a[0], a[i + 1]);
    }
    forall x | x in a && x != a[0] ensures x in a[1..] {
      var i :| 0 <= i < |a| && a[i] == x;
      assert a[1..][i - 1] == x;
    }
  }

  lemma LeastUnique<T(!new)>(m1: T, m2: T, s: set<T>, lt: (T, T) -> bool)
    requires StrictTotalOrder(lt) && IsLeast(m1, s, lt) && IsLeast(m2, s, lt)
    ensures m1 == m2
  {
  }

  lemma SameElementsSameEmptiness<T>(a: seq<T>, b: seq<T>)
    requires forall x :: x in a <==> x in b
    ensures (a == []) == (b == [])
  {
    if a != [] { assert a[0] in a; }
    if b != [] { assert b[0] in b; }
  }

  lemma HeadIsLeast<T(!new)>(a: seq<T>, lt: (T, T) -> bool)
    requires StrictTotalOrder(lt) && Increasing(a, lt) && a != []
    ensures IsLeast(a[0], (set x | x in a), lt)
  {
    forall x | x in a && x != a[0] ensures lt(a[0], x) {
      var i :| 0 <= i < |a| && a[i] == x;
    }
  }

  /** An ascending enumeration of a set is unique. */
  lemma {:induction false} IncreasingUnique<T(!new)>(a: seq<T>, b: seq<T>, lt: (T, T) -> bool)
    requires StrictTotalOrder(lt) && Increasing(a, lt) && Increasing(b, lt)
    requires forall x :: x in a <==> x in b
    ensures a == b
    decreases |a|
  {
    SameElementsSameEmptiness(a, b);
    if a != [] {
      HeadsAgree(a, b, lt);
      IncreasingHeadBelowTail(a, lt);
      IncreasingHeadBelowTail(b, lt);
      IncreasingTail(a, lt);
      IncreasingTail(b, lt);
      IncreasingUnique(a[1..], b[1..], lt);
      assert a == [a[0]] + a[1..] && b == [b[0]] + b[1..];
    }
  }

  lemma HeadsAgree<T(!new)>(a: seq<T>, b: seq<T>, lt: (T, T) -> bool)
    requires StrictTotalOrder(lt) && Increasing(a, lt) && Increasing(b, lt)
    requires forall x :: x in a <==> x in b
    requires a != [] && b != []
    ensures a[0] == b[0]
  {
    HeadIsLeast(a, lt);
    HeadIsLeast(b, lt);
    assert (set x | x in a) == (set x | x in b);
    LeastUnique(a[0], b[0], (set x | x in a), lt);
  }

  lemma IncreasingTail<T>(a: seq<T>, lt: (T, T) -> bool)
    requires Increasing(a, lt) && a != []
    ensures Increasing(a[1..], lt)
  {
    forall i, j | 0 <= i < j < |a| - 1 ensures lt(a[1..][i], a[1..][j]) {
      assert a[1..][i] == a[i + 1] && a[1..][j] == a[j + 1];
    }
  }


  /** Lexicographic order on strings, character by character, a proper prefix
      first: the order of `std::string`'s `operator<`. */
  function StrLess(a: string, b: string): bool {
    if a == [] then b != []
    else if b == [] then false
    else if a[0] != b[0] then a[0] < b[0]
    else StrLess(a[1..], b[1..])
  }

  lemma {:induction false} StrLessIrreflexive(a: string)
    ensures !StrLess(a, a)
  {
    if a != [] { StrLessIrreflexive(a[1..]); }
  }

  lemma {:induction false} StrLessTransitive(a: string, b: string, c: string)
    requires StrLess(a, b) && StrLess(b, c)
    ensures StrLess(a, c)
  {
    if a != [] && b != [] && c != [] && a[0] == b[0] && b[0] == c[0] {
      StrLessTransitive(a[1..], b[1..], c[1..]);
    }
  }

  lemma {:induction false} StrLessTotal(a: string, b: string)
    requires a != b
    ensures StrLess(a, b) || StrLess(b, a)
  {
    if a != [] && b != [] && a[0] == b[0] {
      assert a == [a[0]] + a[1..] && b == [b[0]] + b[1..];
      StrLessTotal(a[1..], b[1..]);
    }
  }

  lemma StrLessIsStrictTotalOrder()
    ensures StrictTotalOrder(StrLess)
  {
    forall x ensures !StrLess(x, x) { StrLessIrreflexive(x); }
    forall x, y, z | StrLess(x, y) && StrLess(y, z) ensures StrLess(x, z) {
      StrLessTransitive(x, y, z);
    }
    forall x, y | x != y ensures StrLess(x, y) || StrLess(y, x) { StrLessTotal(x, y); }
  }

  /** The keys of `m` in ascending order: the order of a `std::map` range
      loop. */
  method SortedKeys<K(==,!new), V>(m: map<K, V>, lt: (K, K) -> bool) returns (keys: seq<K>)
    requires StrictTotalOrder(lt)
    ensures keys == SortedSeq(m.Keys, lt)
  {
    var remaining := m.Keys;
    keys := [];
    while remaining != {}
      invariant remaining <= m.Keys
      invariant forall x :: x in keys <==> x in m && x !in remaining
      invariant Increasing(keys, lt)
      invariant forall i, x :: 0 <= i < |keys| && x in remaining ==> lt(keys[i], x)
      decreases remaining
    {
      LeastExists(remaining, lt);
      var k :| k in remaining && forall x :: x in remaining && x != k ==> lt(k, x);
      keys := keys + [k];
      remaining := remaining - {k};
    }
    IncreasingUnique(keys, SortedSeq(m.Keys, lt), lt);
  }
}
