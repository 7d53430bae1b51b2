/** Listing a finite set in a strict total order of its elements. */
module Listings {
  type Less<!T> = (T, T) -> bool

  ghost predicate StrictOrder<T(!new)>(s: set<T>, less: Less<T>) {
    && (forall a | a in s :: !less(a, a))
    && (forall a, b | a in s && b in s :: a == b || less(a, b) || less(b, a))
    && (forall a, b, c | a in s && b in s && c in s && less(a, b) && less(b, c) :: less(a, c))
  }

  /** r lists the elements of s, each once, in order. */
  ghost predicate Lists<T(!new)>(r: seq<T>, s: set<T>, less: Less<T>) {
    && (forall a :: a in r <==> a in s)
    && (forall i, j | 0 <= i < j < |r| :: less(r[i], r[j]))
  }

  predicate IsLeast<T(==)>(s: set<T>, less: Less<T>, a: T) {
    a in s && forall b | b in s :: b == a || less(a, b)
  }

  lemma {:induction false} LeastExists<T(!new)>(s: set<T>, less: Less<T>)
    requires StrictOrder(s, less) && s != {}
    ensures exists a :: IsLeast(s, less, a)
    decreases |s|
  {
    var x :| x in s;
    var rest := s - {x};
    if rest == {} {
      assert s == {x};
      assert IsLeast(s, less, x);
    } else {
      LeastExists(rest, less);
      var y :| IsLeast(rest, less, y);
      if less(x, y) {
        assert IsLeast(s, less, x);
      } else {
        assert IsLeast(s, less, y);
      }
    }
  }

  lemma LeastUnique<T(!new)>(s: set<T>, less: Less<T>)
    requires StrictOrder(s, less)
    ensures forall a, b | IsLeast(s, less, a) && IsLeast(s, less, b) :: a == b
  {
  }

  function Sort<T(!new)>(s: set<T>, less: Less<T>): seq<T>
    requires StrictOrder(s, less)
    decreases |s|
  {
    if s == {} then []
    else
      LeastExists(s, less);
      LeastUnique(s, less);
      var a :| IsLeast(s, less, a);
      [a] + Sort(s - {a}, less)
  }

  lemma {:induction false} SortLists<T(!new)>(s: set<T>, less: Less<T>)
    requires StrictOrder(s, less)
    ensures Lists(Sort(s, less), s, less) && |Sort(s, less)| == |s|
    decreases |s|
  {
    if s != {} {
      LeastExists(s, less);
      LeastUnique(s, less);
      var a :| IsLeast(s, less, a);
      SortLists(s - {a}, less);
      ConsLists(a, Sort(s - {a}, less), s, less);
    }
  }

  lemma ConsLists<T(!new)>(a: T, r: seq<T>, s: set<T>, less: Less<T>)
    requires StrictOrder(s, less) && IsLeast(s, less, a) && Lists(r, s - {a}, less)
    ensures Lists([a] + r, s, less)
  {
    var t := [a] + r;
    assert forall b :: b in t <==> b == a || b in r;
    forall i, j | 0 <= i < j < |t| ensures less(t[i], t[j]) {
      assert t[j] == r[j - 1] && r[j - 1] in r;
      assert i > 0 ==> t[i] == r[i - 1];
    }
  }

  /** The order leaves no freedom: there is only one listing. */
  lemma {:induction false} ListsUnique<T(!new)>(r: seq<T>, r': seq<T>, s: set<T>, less: Less<T>)
    requires StrictOrder(s, less) && Lists(r, s, less) && Lists(r', s, less)
    ensures r == r'
    decreases |r|
  {
    NonEmpty(r, r', s, less);
    NonEmpty(r', r, s, less);
    if r != [] {
      FirstIsLeast(r, s, less);
      FirstIsLeast(r', s, less);
      LeastUnique(s, less);
      TailLists(r, s, less);
      TailLists(r', s, less);
      ListsUnique(r[1..], r'[1..], s - {r[0]}, less);
      assert r == [r[0]] + r[1..] && r' == [r'[0]] + r'[1..];
    }
  }

  lemma NonEmpty<T(!new)>(r: seq<T>, r': seq<T>, s: set<T>, less: Less<T>)
    requires Lists(r, s, less) && Lists(r', s, less)
    ensures r != [] ==> r' != []
  {
    assert r != [] ==> r[0] in s;
  }

  lemma FirstIsLeast<T(!new)>(r: seq<T>, s: set<T>, less: Less<T>)
    requires Lists(r, s, less) && r != []
    ensures IsLeast(s, less, r[0])
  {
    forall b | b in s ensures b == r[0] || less(r[0], b) {
      assert b in r;
    }
  }

  lemma TailLists<T(!new)>(r: seq<T>, s: set<T>, less: Less<T>)
    requires StrictOrder(s, less) && Lists(r, s, less) && r != []
    ensures Lists(r[1..], s - {r[0]}, less)
  {
    assert forall i | 0 <= i < |r| :: r[i] in s;
    forall a ensures a in r[1..] <==> a in s - {r[0]} {
      assert r == [r[0]] + r[1..];
      assert a in r <==> a == r[0] || a in r[1..];
    }
  }

  function First<T>(r: seq<T>, limit: nat): seq<T> { if |r| <= limit then r else r[..limit] }

  lemma SubsetSize<T>(a: set<T>, b: set<T>)
    requires a <= b
    ensures |a| <= |b|
  {
    assert b == a + (b - a);
  }
}
