// Sorting by a total order, and what the first k elements of a sorted list are.
module Ordering {
  import opened Text

  ghost predicate TotalOrder<T(!new)>(le: (T, T) -> bool)
  {
    && (forall a, b :: le(a, b) || le(b, a))
    && (forall a, b, c :: le(a, b) && le(b, c) ==> le(a, c))
  }

  ghost predicate Sorted<T>(s: seq<T>, le: (T, T) -> bool)
  {
    forall i, j | 0 <= i < j < |s| :: le(s[i], s[j])
  }

  /** Stable insertion: behind everything that may stand before x. */
  function Insert<T>(s: seq<T>, x: T, le: (T, T) -> bool): seq<T>
  {
    if s == [] then [x]
    else if le(s[|s| - 1], x) then s + [x]
    else Insert(s[..|s| - 1], x, le) + [s[|s| - 1]]
  }

  function Sort<T>(s: seq<T>, le: (T, T) -> bool): seq<T>
  {
    if s == [] then [] else Insert(Sort(s[..|s| - 1], le), s[|s| - 1], le)
  }

  lemma {:induction false} InsertSorts<T(!new)>(s: seq<T>, x: T, le: (T, T) -> bool)
    requires TotalOrder(le) && Sorted(s, le)
    ensures Sorted(Insert(s, x, le), le) && multiset(Insert(s, x, le)) == multiset(s + [x])
    ensures forall y | y in Insert(s, x, le) :: y == x || y in s
  {
    if s != [] {
      var head, last := s[..|s| - 1], s[|s| - 1];
      assert s == head + [last];
      if le(last, x) {
        SortedSnoc(s, x, le);
      } else {
        InsertSorts(head, x, le);
        assert forall y | y in head :: le(y, last);
        SortedSnoc(Insert(head, x, le), last, le);
      }
    }
  }

  lemma SortedSnoc<T(!new)>(s: seq<T>, x: T, le: (T, T) -> bool)
    requires TotalOrder(le) && Sorted(s, le)
    requires s != [] ==> le(s[|s| - 1], x) || forall y | y in s :: le(y, x)
    ensures Sorted(s + [x], le)
  {
    forall i | 0 <= i < |s| ensures le(s[i], x) {
      if i < |s| - 1 {
        assert le(s[i], s[|s| - 1]);
      }
      assert s[i] in s;
    }
  }

  lemma {:induction false} SortSorts<T(!new)>(s: seq<T>, le: (T, T) -> bool)
    requires TotalOrder(le)
    ensures Sorted(Sort(s, le), le) && multiset(Sort(s, le)) == multiset(s)
  {
    if s != [] {
      var head, last := s[..|s| - 1], s[|s| - 1];
      assert s == head + [last];
      SortSorts(head, le);
      var p := Sort(head, le);
      var q := Insert(p, last, le);
      assert Sort(s, le) == q;
      InsertSortsSnoc(head, p, last, le);
      assert Sorted(q, le);
    }
  }

  lemma InsertSortsSnoc<T(!new)>(head: seq<T>, p: seq<T>, x: T, le: (T, T) -> bool)
    requires TotalOrder(le) && Sorted(p, le) && multiset(p) == multiset(head)
    ensures Sorted(Insert(p, x, le), le) && multiset(Insert(p, x, le)) == multiset(head + [x])
  {
    InsertSorts(p, x, le);
    SnocMultiset(p, head, x);
  }

  lemma SnocMultiset<T>(a: seq<T>, b: seq<T>, x: T)
    requires multiset(a) == multiset(b)
    ensures multiset(a + [x]) == multiset(b + [x])
  {
  }

  // ---------------------------------------------------------------------
  // Stability
  // ---------------------------------------------------------------------

  /** The first position of x. */
  function Position<T(==)>(s: seq<T>, x: T): (k: nat)
    ensures k <= |s|
    ensures k < |s| ==> s[k] == x
    ensures k == |s| <==> x !in s
  {
    if s == [] then 0
    else
      var k := Position(s[..|s| - 1], x);
      assert s == s[..|s| - 1] + [s[|s| - 1]];
      if k < |s| - 1 then k else if s[|s| - 1] == x then |s| - 1 else |s|
  }

  lemma PositionInHead<T>(s: seq<T>, x: T)
    requires s != [] && x in s[..|s| - 1]
    ensures Position(s, x) == Position(s[..|s| - 1], x)
  {
  }

  /** An insertion leaves the rest in order, around the new element. */
  lemma {:induction false} InsertSplits<T>(s: seq<T>, x: T, le: (T, T) -> bool) returns (k: nat)
    ensures k <= |s| && Insert(s, x, le) == s[..k] + [x] + s[k..]
    ensures forall i | k <= i < |s| :: !le(s[i], x)
  {
    if s == [] {
      k := 0;
    } else if le(s[|s| - 1], x) {
      k := |s|;
    } else {
      var head := s[..|s| - 1];
      k := InsertSplits(head, x, le);
      assert s == head + [s[|s| - 1]];
      assert s[k..] == head[k..] + [s[|s| - 1]];
      assert s[..k] == head[..k];
    }
  }

  /** Elements of equal rank stay in the order they had. */
  ghost predicate StableFrom<T>(s: seq<T>, r: seq<T>, le: (T, T) -> bool)
  {
    forall i, j | 0 <= i < j < |r| && le(r[j], r[i]) :: Position(s, r[i]) < Position(s, r[j])
  }

  lemma {:induction false} SortIsStable<T(!new)>(s: seq<T>, le: (T, T) -> bool)
    requires TotalOrder(le) && Distinct(s)
    ensures StableFrom(s, Sort(s, le), le)
  {
    if s != [] {
      var head, last := s[..|s| - 1], s[|s| - 1];
      SortIsStable(head, le);
      SortSorts(head, le);
      var p, r := Sort(head, le), Sort(s, le);
      var k := InsertSplits(p, last, le);
      assert r == p[..k] + [last] + p[k..];
      assert last !in head;
      assert Position(s, last) == |s| - 1;
      forall x | x in p ensures Position(s, x) == Position(head, x) < |s| - 1 {
        assert x in multiset(p);
        PositionInHead(s, x);
      }
      StableAround(s, head, p, last, k, le);
    }
  }

  lemma StableAround<T>(s: seq<T>, head: seq<T>, p: seq<T>, last: T, k: nat, le: (T, T) -> bool)
    requires k <= |p| && StableFrom(head, p, le)
    requires forall x | x in p :: Position(s, x) == Position(head, x) < Position(s, last)
    requires forall i | k <= i < |p| :: !le(p[i], last)
    ensures StableFrom(s, p[..k] + [last] + p[k..], le)
  {
    var r := p[..k] + [last] + p[k..];
    forall i, j | 0 <= i < j < |r| && le(r[j], r[i]) ensures Position(s, r[i]) < Position(s, r[j]) {
      assert r[i] == if i < k then p[i] else if i == k then last else p[i - 1];
      assert r[j] == if j < k then p[j] else if j == k then last else p[j - 1];
      if i != k && j != k {
        var x, y := if i < k then i else i - 1, if j < k then j else j - 1;
        assert p[x] in p && p[y] in p && le(p[y], p[x]);
      } else if j == k {
        assert p[i] in p;
      }
    }
  }

  /** Two lists of the same elements, each in the order of one asymmetric relation, are equal. */
  lemma {:induction false} OrderedIsUnique<T(!new)>(r: seq<T>, q: seq<T>, before: (T, T) -> bool)
    requires forall a, b :: !(before(a, b) && before(b, a))
    requires forall i, j | 0 <= i < j < |r| :: before(r[i], r[j])
    requires forall i, j | 0 <= i < j < |q| :: before(q[i], q[j])
    requires multiset(r) == multiset(q)
    ensures r == q
  {
    if r == [] || q == [] {
      assert |multiset(r)| == |r| && |multiset(q)| == |q|;
    } else {
      assert r[0] in multiset(r) && q[0] in multiset(q);
      FirstComesFirst(r, before, q[0]);
      FirstComesFirst(q, before, r[0]);
      assert r[0] == q[0];
      TailMultiset(r);
      TailMultiset(q);
      OrderedIsUnique(r[1..], q[1..], before);
    }
  }

  lemma TailMultiset<T>(r: seq<T>)
    requires r != []
    ensures multiset(r[1..]) == multiset(r) - multiset{r[0]}
  {
    assert r == [r[0]] + r[1..];
  }

  lemma FirstComesFirst<T(!new)>(r: seq<T>, before: (T, T) -> bool, x: T)
    requires forall i, j | 0 <= i < j < |r| :: before(r[i], r[j])
    requires x in r
    ensures x == r[0] || before(r[0], x)
  {
    var i :| 0 <= i < |r| && r[i] == x;
    assert i > 0 ==> before(r[0], r[i]);
  }

  // ---------------------------------------------------------------------
  // Slices of sorted lists
  // ---------------------------------------------------------------------

  /** s[:k] */
  function SliceTo<T>(s: seq<T>, k: int): (r: seq<T>)
    ensures r <= s && |r| == SliceLength(|s|, k)
  {
    if k >= |s| then s
    else if k >= 0 then s[..k]
    else if |s| + k <= 0 then []
    else s[..|s| + k]
  }

  /** A negative bound counts from the end. */
  function SliceLength(n: nat, k: int): (m: nat)
    ensures m <= n
  {
    if k >= n then n else if k >= 0 then k else if n + k <= 0 then 0 else n + k
  }

  // ---------------------------------------------------------------------
  // Strings
  // ---------------------------------------------------------------------

  /** Lexicographic order by code point. */
  predicate StringLe(a: string, b: string)
  {
    if a == [] then true
    else if b == [] then false
    else if a[0] != b[0] then a[0] < b[0]
    else StringLe(a[1..], b[1..])
  }

  /** a is a prefix of b, or has the smaller character where they first differ. */
  lemma {:induction false} StringLeExactly(a: string, b: string)
    ensures StringLe(a, b) <==>
      a <= b || exists k :: 0 <= k < |a| && k < |b| && a[..k] == b[..k] && a[k] < b[k]
  {
    if a != [] && b != [] && a[0] == b[0] {
      StringLeExactly(a[1..], b[1..]);
      assert a == [a[0]] + a[1..] && b == [b[0]] + b[1..];
      SameFirst(a, b);
    }
  }

  lemma SameFirst(a: string, b: string)
    requires a != [] && b != [] && a[0] == b[0]
    ensures a <= b <==> a[1..] <= b[1..]
    ensures (exists k :: 0 <= k < |a| && k < |b| && a[..k] == b[..k] && a[k] < b[k])
       <==> exists k :: 0 <= k < |a[1..]| && k < |b[1..]| && a[1..][..k] == b[1..][..k] && a[1..][k] < b[1..][k]
  {
    if k :| 0 <= k < |a| && k < |b| && a[..k] == b[..k] && a[k] < b[k] {
      assert a[1..][..k - 1] == a[..k][1..] == b[..k][1..] == b[1..][..k - 1];
      assert a[1..][k - 1] < b[1..][k - 1];
    }
    if k :| 0 <= k < |a[1..]| && k < |b[1..]| && a[1..][..k] == b[1..][..k] && a[1..][k] < b[1..][k] {
      assert a[..k + 1] == [a[0]] + a[1..][..k] == [b[0]] + b[1..][..k] == b[..k + 1];
      assert a[k + 1] < b[k + 1];
    }
  }

  lemma {:induction false} StringLeTotal(a: string, b: string)
    ensures StringLe(a, b) || StringLe(b, a)
    ensures StringLe(a, b) && StringLe(b, a) ==> a == b
  {
    if a != [] && b != [] {
      StringLeTotal(a[1..], b[1..]);
      assert a == [a[0]] + a[1..] && b == [b[0]] + b[1..];
    }
  }

  lemma {:induction false} StringLeTransitive(a: string, b: string, c: string)
    requires StringLe(a, b) && StringLe(b, c)
    ensures StringLe(a, c)
  {
    if a != [] && b != [] && c != [] {
      if a[0] == b[0] == c[0] {
        StringLeTransitive(a[1..], b[1..], c[1..]);
      }
    }
  }

  /** Smaller first component, or the same one and the rest in order. */
  predicate ThenBy(a: string, b: string, rest: bool)
  {
    if a == b then rest else StringLe(a, b)
  }
}
