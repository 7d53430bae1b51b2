/** A Redis sorted set and the order in which its range commands list it:
    ascending score, equal scores by member. */
module SortedSets {
  import opened Listings

  type Scores = map<string, int>

  predicate LexLess(a: string, b: string) {
    if b == [] then false
    else if a == [] then true
    else a[0] < b[0] || (a[0] == b[0] && LexLess(a[1..], b[1..]))
  }

  lemma {:induction false} LexTotal(a: string, b: string)
    ensures LexLess(a, b) || LexLess(b, a) || a == b
    ensures !(LexLess(a, b) && LexLess(b, a))
    ensures !LexLess(a, a)
    decreases |a|
  {
    if a != [] {
      LexTotal(a[1..], a[1..]);
      if b != [] {
        LexTotal(a[1..], b[1..]);
        assert a == [a[0]] + a[1..] && b == [b[0]] + b[1..];
      }
    }
  }

  /** Equal before place i, and less there. */
  predicate LessAt(a: string, b: string, i: int) {
    0 <= i < |a| && i < |b| && a[..i] == b[..i] && a[i] < b[i]
  }

  /** Byte order: a is a proper prefix of b, or less at the first place where they differ. */
  lemma {:induction false} LexIs(a: string, b: string)
    ensures LexLess(a, b) <==> (|a| < |b| && a == b[..|a|]) || exists i :: LessAt(a, b, i)
    decreases |a|
  {
    if a != [] && b != [] {
      LexIs(a[1..], b[1..]);
      assert a == [a[0]] + a[1..] && b == [b[0]] + b[1..];
      assert |a| < |b| ==> b[..|a|] == [b[0]] + b[1..][..|a| - 1];
      assert a[0] < b[0] ==> LessAt(a, b, 0);
      forall i ensures LessAt(a, b, i) <==> (i == 0 && a[0] < b[0]) || (a[0] == b[0] && LessAt(a[1..], b[1..], i - 1)) {
        LessAtTail(a, b, i);
      }
      assert a[0] == b[0] ==> forall j | LessAt(a[1..], b[1..], j) :: LessAt(a, b, j + 1);
    }
  }

  lemma LessAtTail(a: string, b: string, i: int)
    requires a != [] && b != []
    ensures LessAt(a, b, i) <==> (i == 0 && a[0] < b[0]) || (a[0] == b[0] && LessAt(a[1..], b[1..], i - 1))
  {
    if 0 < i < |a| && i < |b| {
      assert a[..i] == [a[0]] + a[1..][..i - 1] && b[..i] == [b[0]] + b[1..][..i - 1];
      assert a[..i] == b[..i] ==> a[1..][..i - 1] == a[..i][1..] == b[..i][1..] == b[1..][..i - 1];
    }
  }

  lemma {:induction false} LexTransitive(a: string, b: string, c: string)
    requires LexLess(a, b) && LexLess(b, c)
    ensures LexLess(a, c)
    decreases |a|
  {
    if a != [] && a[0] == b[0] == c[0] {
      LexTransitive(a[1..], b[1..], c[1..]);
    }
  }

  predicate Before(z: Scores, a: string, b: string)
    requires a in z && b in z
  {
    z[a] < z[b] || (z[a] == z[b] && LexLess(a, b))
  }

  lemma BeforeTotal(z: Scores, a: string, b: string)
    requires a in z && b in z
    ensures Before(z, a, b) || Before(z, b, a) || a == b
    ensures !(Before(z, a, b) && Before(z, b, a))
    ensures !Before(z, a, a)
  {
    LexTotal(a, b);
  }

  lemma BeforeTransitive(z: Scores, a: string, b: string, c: string)
    requires a in z && b in z && c in z
    requires Before(z, a, b) && Before(z, b, c)
    ensures Before(z, a, c)
  {
    if z[a] == z[b] == z[c] {
      LexTransitive(a, b, c);
    }
  }

  function RangeOrder(z: Scores): Less<string> {
    (a, b) => a in z && b in z && Before(z, a, b)
  }

  lemma RangeOrderIsStrict(z: Scores)
    ensures StrictOrder(z.Keys, RangeOrder(z))
  {
    var less := RangeOrder(z);
    forall a, b | a in z.Keys && b in z.Keys ensures !less(a, a) && (a == b || less(a, b) || less(b, a)) {
      BeforeTotal(z, a, b);
    }
    forall a, b, c | a in z.Keys && b in z.Keys && c in z.Keys && less(a, b) && less(b, c) ensures less(a, c) {
      BeforeTransitive(z, a, b, c);
    }
  }

  /** r lists the members of z, each once, in range order. */
  ghost predicate Listing(r: seq<string>, z: Scores) {
    && (forall a :: a in r <==> a in z)
    && (forall i, j | 0 <= i < j < |r| :: Before(z, r[i], r[j]))
  }

  /** The first member in range order. */
  predicate IsFirst(z: Scores, a: string) {
    a in z && forall b | b in z :: b != a ==> Before(z, a, b)
  }

  lemma FirstExists(z: Scores)
    requires z != map[]
    ensures exists a :: IsFirst(z, a)
  {
    RangeOrderIsStrict(z);
    LeastExists(z.Keys, RangeOrder(z));
    var a :| IsLeast(z.Keys, RangeOrder(z), a);
    assert IsFirst(z, a);
  }

  /** All members, in range order: ZRANGE 0 -1. */
  function Range(z: Scores): seq<string> {
    RangeOrderIsStrict(z);
    Sort(z.Keys, RangeOrder(z))
  }

  lemma RangeListing(z: Scores)
    ensures Listing(Range(z), z) && |Range(z)| == |z|
  {
    RangeOrderIsStrict(z);
    SortLists(z.Keys, RangeOrder(z));
    assert |z.Keys| == |z|;
  }

  /** The members with score at least low: ZRANGEBYSCORE low +inf. */
  function FromScore(z: Scores, low: int): Scores {
    map a | a in z && z[a] >= low :: z[a]
  }
}
