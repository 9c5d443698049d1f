/** Fixed-size arrays used as zero-terminated lists (lib.rs `transmitters()`, `executors()`, `proposers()`). */
module FixedList {

  /** `take_while(|k| k != default)`. */
  function TakeNonzero<T(==)>(a: seq<T>, zero: T): (s: seq<T>)
    ensures |s| <= |a| && s == a[..|s|] && zero !in s
    ensures |s| < |a| ==> a[|s|] == zero
  {
    if a == [] || a[0] == zero then [] else [a[0]] + TakeNonzero(a[1..], zero)
  }

  /** `filter(|x| !xs.contains(x))`. */
  function Excluding<T(==)>(s: seq<T>, xs: seq<T>): seq<T> {
    if s == [] then []
    else (if s[0] in xs then [] else [s[0]]) + Excluding(s[1..], xs)
  }

  /** `filter(|y| y != x)`. */
  function Without<T(==)>(s: seq<T>, x: T): seq<T> {
    Excluding(s, [x])
  }

  function Repeat<T>(n: nat, x: T): (s: seq<T>)
    ensures |s| == n && forall i :: 0 <= i < n ==> s[i] == x
  {
    seq(n, _ => x)
  }

  function Pad<T>(s: seq<T>, n: nat, zero: T): (a: seq<T>)
    requires |s| <= n
    ensures |a| == n
  {
    s + Repeat(n - |s|, zero)
  }

  /** Nothing but zeros after the first zero. */
  predicate Compact<T(==)>(a: seq<T>, zero: T) {
    forall i, j :: 0 <= i < j < |a| && a[i] == zero ==> a[j] == zero
  }

  function ToSet<T>(s: seq<T>): set<T> {
    set x | x in s
  }

  predicate Distinct<T(==)>(s: seq<T>) {
    forall i, j :: 0 <= i < j < |s| ==> s[i] != s[j]
  }

  lemma {:induction false} TakeNonzeroUnique<T>(a: seq<T>, zero: T, s: seq<T>)
    requires s <= a && zero !in s && (|s| < |a| ==> a[|s|] == zero)
    ensures TakeNonzero(a, zero) == s
  {
    if s != [] {
      TakeNonzeroUnique(a[1..], zero, s[1..]);
    }
  }

  /** Reading back a zero-free list written into a padded array. */
  lemma ListOfPadded<T>(s: seq<T>, n: nat, zero: T)
    requires |s| <= n && zero !in s
    ensures TakeNonzero(Pad(s, n, zero), zero) == s
    ensures Without(Pad(s, n, zero), zero) == s
    ensures Compact(Pad(s, n, zero), zero)
  {
    TakeNonzeroUnique(Pad(s, n, zero), zero, s);
    WithoutPadded(s, n - |s|, zero);
  }

  lemma {:induction false} WithoutPadded<T>(s: seq<T>, k: nat, zero: T)
    requires zero !in s
    ensures Without(s + Repeat(k, zero), zero) == s
  {
    var a := s + Repeat(k, zero);
    if s != [] {
      assert a[1..] == s[1..] + Repeat(k, zero);
      WithoutPadded(s[1..], k, zero);
    } else if k > 0 {
      assert a[1..] == s + Repeat(k - 1, zero);
      WithoutPadded(s, k - 1, zero);
    }
  }

  /** Filtering keeps exactly the other elements, and creates no duplicates. */
  lemma {:induction false} ExcludingProperties<T>(s: seq<T>, xs: seq<T>)
    ensures |Excluding(s, xs)| <= |s|
    ensures forall x :: x in Excluding(s, xs) <==> x in s && x !in xs
    ensures Distinct(s) ==> Distinct(Excluding(s, xs))
  {
    if s != [] {
      ExcludingProperties(s[1..], xs);
    }
  }

  lemma ExcludingSet<T>(s: seq<T>, xs: seq<T>)
    ensures ToSet(Excluding(s, xs)) == ToSet(s) - ToSet(xs)
  {
    ExcludingProperties(s, xs);
    var left, right := ToSet(Excluding(s, xs)), ToSet(s) - ToSet(xs);
    assert forall x :: x in left <==> x in right;
  }

  lemma DistinctCardinality<T>(s: seq<T>)
    requires Distinct(s)
    ensures |set x | x in s| == |s|
  {
    if s != [] {
      var t := s[..|s| - 1];
      DistinctCardinality(t);
      assert (set x | x in s) == (set x | x in t) + {s[|s| - 1]};
    }
  }
}
