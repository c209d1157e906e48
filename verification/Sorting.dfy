/** Python's `sorted` on lists whose elements are all different: a strict total order, and the one list in
    that order which holds given elements. */
module Sorting {

  ghost predicate StrictTotalOrder<T(!new)>(lt: (T, T) -> bool) {
    && (forall a :: !lt(a, a))
    && (forall a, b :: a != b ==> lt(a, b) || lt(b, a))
    && (forall a, b, c :: lt(a, b) && lt(b, c) ==> lt(a, c))
  }

  /** The order Python gives to strings and to lists: the first difference decides, and a prefix comes first. */
  predicate Lexicographic<T(==)>(lt: (T, T) -> bool, a: seq<T>, b: seq<T>) {
    if b == [] then false
    else if a == [] then true
    else if a[0] == b[0] then Lexicographic(lt, a[1..], b[1..])
    else lt(a[0], b[0])
  }

  lemma {:induction false} LexicographicIrreflexive<T>(lt: (T, T) -> bool, a: seq<T>)
    ensures !Lexicographic(lt, a, a)
  {
    if a != [] { LexicographicIrreflexive(lt, a[1..]); }
  }

  lemma {:induction false} LexicographicConnected<T(!new)>(lt: (T, T) -> bool, a: seq<T>, b: seq<T>)
    requires StrictTotalOrder(lt)
    requires a != b
    ensures Lexicographic(lt, a, b) || Lexicographic(lt, b, a)
  {
    if a != [] && b != [] && a[0] == b[0] {
      assert a == [a[0]] + a[1..] && b == [b[0]] + b[1..];
      LexicographicConnected(lt, a[1..], b[1..]);
    }
  }

  lemma {:induction false} LexicographicTransitive<T(!new)>(lt: (T, T) -> bool, a: seq<T>, b: seq<T>, c: seq<T>)
    requires StrictTotalOrder(lt)
    requires Lexicographic(lt, a, b) && Lexicographic(lt, b, c)
    ensures Lexicographic(lt, a, c)
  {
    if a != [] && a[0] == b[0] && b[0] == c[0] {
      LexicographicTransitive(lt, a[1..], b[1..], c[1..]);
    }
  }

  lemma LexicographicIsStrictTotalOrder<T(!new)>(lt: (T, T) -> bool)
    requires StrictTotalOrder(lt)
    ensures StrictTotalOrder((a: seq<T>, b: seq<T>) => Lexicographic(lt, a, b))
  {
    forall a: seq<T> ensures !Lexicographic(lt, a, a) { LexicographicIrreflexive(lt, a); }
    forall a: seq<T>, b: seq<T> | a != b ensures Lexicographic(lt, a, b) || Lexicographic(lt, b, a) {
      LexicographicConnected(lt, a, b);
    }
    forall a: seq<T>, b: seq<T>, c: seq<T> | Lexicographic(lt, a, b) && Lexicographic(lt, b, c)
      ensures Lexicographic(lt, a, c)
    {
      LexicographicTransitive(lt, a, b, c);
    }
  }

  ghost predicate StrictlyIncreasing<T>(lt: (T, T) -> bool, s: seq<T>) {
    forall i, j :: 0 <= i < j < |s| ==> lt(s[i], s[j])
  }

  ghost predicate Distinct<T>(s: seq<T>) {
    forall i, j :: 0 <= i < j < |s| ==> s[i] != s[j]
  }

  ghost function Elements<T>(s: seq<T>): set<T> {
    set x | x in s
  }

  function Insert<T(!new)>(lt: (T, T) -> bool, x: T, s: seq<T>): (r: seq<T>)
    ensures multiset(r) == multiset(s) + multiset{x}
    ensures Elements(r) == Elements(s) + {x}
  {
    if s == [] || lt(x, s[0]) then [x] + s
    else
      assert s == [s[0]] + s[1..];
      var r := [s[0]] + Insert(lt, x, s[1..]);
      assert Elements(r) == {s[0]} + Elements(Insert(lt, x, s[1..]));
      assert Elements(s) == {s[0]} + Elements(s[1..]);
      r
  }

  function Sort<T(!new)>(lt: (T, T) -> bool, s: seq<T>): (r: seq<T>)
    ensures multiset(r) == multiset(s)
    ensures Elements(r) == Elements(s)
    ensures |r| == |s|
  {
    if s == [] then []
    else
      assert s == [s[0]] + s[1..];
      var r := Insert(lt, s[0], Sort(lt, s[1..]));
      assert multiset(r) == multiset(s);
      assert |multiset(r)| == |r| && |multiset(s)| == |s|;
      r
  }

  lemma {:induction false} InsertIncreasing<T(!new)>(lt: (T, T) -> bool, x: T, s: seq<T>)
    requires StrictTotalOrder(lt)
    requires StrictlyIncreasing(lt, s) && x !in s
    ensures StrictlyIncreasing(lt, Insert(lt, x, s))
  {
    if s != [] && !lt(x, s[0]) {
      InsertIncreasing(lt, x, s[1..]);
      var r := Insert(lt, x, s[1..]);
      assert forall y :: y in r ==> y in Elements(s[1..]) + {x};
      assert forall i :: 0 <= i < |r| ==> r[i] in Elements(r);
    }
  }

  lemma {:induction false} SortIncreasing<T(!new)>(lt: (T, T) -> bool, s: seq<T>)
    requires StrictTotalOrder(lt)
    requires Distinct(s)
    ensures StrictlyIncreasing(lt, Sort(lt, s))
  {
    if s != [] {
      SortIncreasing(lt, s[1..]);
      assert s[0] !in Elements(s[1..]);
      InsertIncreasing(lt, s[0], Sort(lt, s[1..]));
    }
  }

  /** A list in strictly increasing order is determined by its elements. */
  lemma {:induction false} IncreasingIsUnique<T(!new)>(lt: (T, T) -> bool, s: seq<T>, t: seq<T>)
    requires StrictTotalOrder(lt)
    requires StrictlyIncreasing(lt, s) && StrictlyIncreasing(lt, t)
    requires Elements(s) == Elements(t)
    ensures s == t
  {
    assert t != [] ==> t[0] in Elements(t);
    if s != [] {
      assert s[0] in Elements(t);
      var j :| 0 <= j < |t| && t[j] == s[0];
      assert t[0] in Elements(s);
      var i :| 0 <= i < |s| && s[i] == t[0];
      assert s[0] == t[0];
      forall x ensures x in Elements(s[1..]) <==> x in Elements(t[1..]) {
        if x in Elements(s[1..]) {
          var k :| 0 <= k < |s| - 1 && s[1..][k] == x;
          assert s[k + 1] == x && lt(s[0], x) && x in Elements(t);
        }
        if x in Elements(t[1..]) {
          var k :| 0 <= k < |t| - 1 && t[1..][k] == x;
          assert t[k + 1] == x && lt(t[0], x) && x in Elements(s);
        }
      }
      IncreasingIsUnique(lt, s[1..], t[1..]);
      assert s == [s[0]] + s[1..] && t == [t[0]] + t[1..];
    }
  }

  lemma {:induction false} DistinctCount<T(!new)>(s: seq<T>)
    requires Distinct(s)
    ensures |Elements(s)| == |s|
  {
    if s != [] {
      var (rest, last) := (s[..|s| - 1], s[|s| - 1]);
      DistinctCount(rest);
      assert Elements(s) == Elements(rest) + {last};
      assert last !in rest;
    }
  }

  lemma IncreasingSize<T(!new)>(lt: (T, T) -> bool, s: seq<T>)
    requires StrictTotalOrder(lt) && StrictlyIncreasing(lt, s)
    ensures Distinct(s) && |Elements(s)| == |s|
  {
    DistinctCount(s);
  }

  lemma {:induction false} SubsetSize<T(!new)>(a: set<T>, b: set<T>)
    requires a <= b
    ensures |a| <= |b|
  {
    if a != {} {
      var x :| x in a;
      SubsetSize(a - {x}, b - {x});
    }
  }

  lemma DistinctMore<T(!new)>(s: seq<T>, x: T)
    requires Distinct(s) && x !in s
    ensures Distinct(s + [x])
  {
  }

  /** `s.remove(x)`, of a list that may lack it. */
  function Removed<T(==)>(s: seq<T>, x: T): seq<T> {
    if s == [] then [] else if s[0] == x then s[1..] else [s[0]] + Removed(s[1..], x)
  }

  lemma {:induction false} RemovedAre<T(!new)>(s: seq<T>, x: T)
    requires Distinct(s)
    ensures Distinct(Removed(s, x)) && forall y :: y in Removed(s, x) <==> y in s && y != x
  {
    if s != [] {
      assert s == [s[0]] + s[1..];
      assert s[0] !in s[1..];
      if s[0] != x { RemovedAre(s[1..], x); }
    }
  }

  /** `Removed` takes out the first occurrence. */
  lemma {:induction false} RemovedFirst<T(!new)>(s: seq<T>, x: T, i: nat)
    requires i <= |s| && (forall j :: 0 <= j < i ==> s[j] != x) && (i < |s| ==> s[i] == x)
    ensures Removed(s, x) == if i < |s| then s[..i] + s[i + 1..] else s
  {
    if i > 0 {
      RemovedFirst(s[1..], x, i - 1);
      if i < |s| { assert s[..i] == [s[0]] + s[1..][..i - 1] && s[1..][i..] == s[i + 1..]; }
    }
  }

  /** `sorted(s)` */
  method SortedSet<T(!new,==)>(lt: (T, T) -> bool, s: set<T>) returns (r: seq<T>)
    requires StrictTotalOrder(lt)
    ensures Elements(r) == s && StrictlyIncreasing(lt, r)
  {
    var rest, listed := s, [];
    while rest != {}
      invariant Elements(listed) + rest == s && Elements(listed) !! rest
      invariant Distinct(listed)
      decreases rest
    {
      var x :| x in rest;
      ghost var was := Elements(listed);
      rest, listed := rest - {x}, listed + [x];
      assert Elements(listed) == was + {x};
    }
    SortIncreasing(lt, listed);
    r := Sort(lt, listed);
  }
}
