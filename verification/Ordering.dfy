/** Strict total orders and the ascending walk of a finite set.

    Every `BTreeMap` and `BTreeSet` of the resolver is a `map` or a `set` here;
    `Ascend` is the order in which such a collection is iterated. */
module Ordering {

  ghost predicate StrictTotal<T(!new)>(less: (T, T) -> bool) {
    && (forall x :: !less(x, x))
    && (forall x, y, z :: less(x, y) && less(y, z) ==> less(x, z))
    && (forall x, y :: less(x, y) || x == y || less(y, x))
  }

  ghost predicate Ascending<T>(less: (T, T) -> bool, s: seq<T>) {
    forall i, j :: 0 <= i < j < |s| ==> less(s[i], s[j])
  }

  ghost function Elements<T>(s: seq<T>): set<T> {
    set x | x in s
  }

  ghost predicate NoRepeats<T>(s: seq<T>) {
    forall i, j :: 0 <= i < j < |s| ==> s[i] != s[j]
  }

  lemma {:induction false} NoRepeatsCount<T>(s: seq<T>)
    requires NoRepeats(s)
    ensures |Elements(s)| == |s|
  {
    if s != [] {
      var n := |s| - 1;
      NoRepeatsCount(s[..n]);
      assert Elements(s) == Elements(s[..n]) + {s[n]};
    }
  }

  lemma {:induction false} SubsetSize<T>(a: set<T>, b: set<T>)
    requires a <= b
    ensures |a| <= |b|
    ensures |a| == |b| ==> a == b
  {
    if a != {} {
      var x :| x in a;
      SubsetSize(a - {x}, b - {x});
    }
  }

  function Reversed<T>(s: seq<T>): (r: seq<T>)
    ensures |r| == |s|
    ensures forall i :: 0 <= i < |s| ==> r[i] == s[|s| - 1 - i]
  {
    seq(|s|, i requires 0 <= i < |s| => s[|s| - 1 - i])
  }

  ghost predicate IsLeast<T>(less: (T, T) -> bool, s: set<T>, m: T) {
    m in s && forall x :: x in s ==> x == m || less(m, x)
  }

  lemma {:induction false} LeastExists<T(!new)>(less: (T, T) -> bool, s: set<T>)
    requires StrictTotal(less) && s != {}
    ensures exists m :: IsLeast(less, s, m)
    decreases |s|
  {
    var x :| x in s;
    var rest := s - {x};
    if rest == {} {
      assert s == {x};
      assert IsLeast(less, s, x);
    } else {
      LeastExists(less, rest);
      var m :| IsLeast(less, rest, m);
      assert IsLeast(less, s, if less(m, x) then m else x);
    }
  }

  ghost function Least<T(!new)>(less: (T, T) -> bool, s: set<T>): (m: T)
    requires StrictTotal(less) && s != {}
    ensures IsLeast(less, s, m)
  {
    LeastExists(less, s);
    var m :| IsLeast(less, s, m);
    m
  }

  /** The elements of `s`, smallest first. */
  ghost function Ascend<T(!new)>(less: (T, T) -> bool, s: set<T>): seq<T>
    requires StrictTotal(less)
    decreases |s|
  {
    if s == {} then []
    else
      var m := Least(less, s);
      [m] + Ascend(less, s - {m})
  }

  lemma {:induction false} AscendProperties<T(!new)>(less: (T, T) -> bool, s: set<T>)
    requires StrictTotal(less)
    ensures Ascending(less, Ascend(less, s))
    ensures forall x :: x in Ascend(less, s) <==> x in s
    ensures |Ascend(less, s)| == |s|
    decreases |s|
  {
    if s != {} {
      AscendProperties(less, s - {Least(less, s)});
    }
  }

  /** A finite set has one ascending enumeration. */
  lemma {:induction false} AscendingUnique<T(!new)>(less: (T, T) -> bool, a: seq<T>, b: seq<T>)
    requires StrictTotal(less)
    requires Ascending(less, a) && Ascending(less, b)
    requires forall x :: x in a <==> x in b
    ensures a == b
  {
    assert |b| > 0 ==> b[0] in a;
    if a == [] {
    } else {
      assert a[0] in b && b[0] in a;
      assert a[0] == b[0];
      forall x ensures x in a[1..] <==> x in b[1..] {
        TailElement(less, a, x);
        TailElement(less, b, x);
      }
      AscendingUnique(less, a[1..], b[1..]);
      assert a == [a[0]] + a[1..];
    }
  }

  lemma TailElement<T(!new)>(less: (T, T) -> bool, s: seq<T>, x: T)
    requires StrictTotal(less) && Ascending(less, s) && s != []
    ensures x in s[1..] <==> x in s && x != s[0]
  {
    if x in s && x != s[0] {
      var i :| 0 <= i < |s| && s[i] == x;
      assert s[1..][i - 1] == x;
    }
  }

  /** Walking a `BTreeSet`: repeatedly take the least element that is left. */
  method Enumerate<T(!new, ==)>(less: (T, T) -> bool, s: set<T>) returns (r: seq<T>)
    requires StrictTotal(less)
    ensures r == Ascend(less, s)
  {
    r := [];
    var rest := s;
    hide StrictTotal, Ascending;
    while rest != {}
      invariant Ascend(less, s) == r + Ascend(less, rest)
      decreases |rest|
    {
      LeastExists(less, rest);
      var m :| m in rest && forall x :: x in rest ==> x == m || less(m, x);
      AscendFromLeast(less, rest, m);
      assert (r + [m]) + Ascend(less, rest - {m}) == r + ([m] + Ascend(less, rest - {m}));
      r, rest := r + [m], rest - {m};
    }
  }

  lemma AscendFromLeast<T(!new)>(less: (T, T) -> bool, s: set<T>, m: T)
    requires StrictTotal(less) && IsLeast(less, s, m)
    ensures Ascend(less, s) == [m] + Ascend(less, s - {m})
  {
    var l := Least(less, s);
    assert l == m || less(m, l);
    assert m == l || less(l, m);
  }
}
