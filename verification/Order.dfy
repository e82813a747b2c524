/** Options, and sorting by a strict order: what the source gets from Go's `sort` package. */
module Options {
  datatype Option<+T> = None | Some(value: T)
}

module Order {
  /** `less` orders the elements of `s` strictly and totally. */
  ghost predicate TotalOn<T(!new)>(s: set<T>, less: (T, T) -> bool) {
    && (forall x | x in s :: !less(x, x))
    && (forall x, y | x in s && y in s && x != y :: less(x, y) || less(y, x))
    && (forall x, y, z | x in s && y in s && z in s && less(x, y) && less(y, z) :: less(x, z))
  }

  /** `q` lists the elements of `s`, each once, in increasing order. */
  ghost predicate SortedOf<T(!new)>(q: seq<T>, s: set<T>, less: (T, T) -> bool) {
    && (forall x :: x in q <==> x in s)
    && (forall i, j | 0 <= i < j < |q| :: less(q[i], q[j]))
  }

  /** The sorted enumeration of `s` (unique, see `SortedUnique`). */
  ghost function Sorted<T(!new)>(s: set<T>, less: (T, T) -> bool): seq<T> {
    if exists q :: SortedOf(q, s, less) then
      var q :| SortedOf(q, s, less); q
    else []
  }

  lemma {:induction false} LeastExists<T(!new)>(s: set<T>, less: (T, T) -> bool) returns (m: T)
    requires s != {} && TotalOn(s, less)
    ensures m in s && forall y | y in s && y != m :: less(m, y)
    decreases |s|
  {
    m :| m in s;
    if s != {m} {
      var rest := s - {m};
      assert |rest| < |s|;
      var n := LeastExists(rest, less);
      if !less(m, n) { m := n; }
    }
  }

  lemma {:induction false} SortedUnique<T(!new)>(p: seq<T>, q: seq<T>, s: set<T>, less: (T, T) -> bool)
    requires TotalOn(s, less) && SortedOf(p, s, less) && SortedOf(q, s, less)
    ensures p == q
    decreases |p|
  {
    EmptyTogether(p, s, less);
    EmptyTogether(q, s, less);
    if p != [] {
      assert p[0] in q && q[0] in s && q[0] in p;
      var i :| 0 <= i < |q| && q[i] == p[0];
      var j :| 0 <= j < |p| && p[j] == q[0];
      assert p[0] == q[0];
      var t := s - {p[0]};
      assert SortedOf(p[1..], t, less) by { DropFirst(p, s, less); }
      assert SortedOf(q[1..], t, less) by { DropFirst(q, s, less); }
      SortedUnique(p[1..], q[1..], t, less);
      assert p == [p[0]] + p[1..] && q == [q[0]] + q[1..];
    }
  }

  lemma EmptyTogether<T(!new)>(q: seq<T>, s: set<T>, less: (T, T) -> bool)
    requires SortedOf(q, s, less)
    ensures q == [] <==> s == {}
  {
    if q != [] { assert q[0] in s; }
  }

  lemma DropFirst<T(!new)>(q: seq<T>, s: set<T>, less: (T, T) -> bool)
    requires TotalOn(s, less) && SortedOf(q, s, less) && q != []
    ensures SortedOf(q[1..], s - {q[0]}, less)
  {
    forall x ensures x in q[1..] <==> x in s - {q[0]} {
      if x in q[1..] {
        var i :| 0 <= i < |q[1..]| && q[1..][i] == x;
        assert less(q[0], q[i + 1]);
        assert q[i + 1] in q && q[0] in q;
      }
      if x in s - {q[0]} {
        var i :| 0 <= i < |q| && q[i] == x;
        assert q[1..][i - 1] == x;
      }
    }
  }

  lemma {:induction false} SortedExists<T(!new)>(s: set<T>, less: (T, T) -> bool)
    requires TotalOn(s, less)
    ensures SortedOf(Sorted(s, less), s, less)
    decreases |s|
  {
    if s == {} {
      assert SortedOf([], s, less);
    } else {
      var m := LeastExists(s, less);
      var t := s - {m};
      assert |t| < |s|;
      SortedExists(t, less);
      var r := Sorted(t, less);
      var q := [m] + r;
      forall i, j | 0 <= i < j < |q| ensures less(q[i], q[j]) {
        assert r[j - 1] in t;
      }
      assert SortedOf(q, s, less);
    }
  }

  /** Sorting by repeatedly taking the least element that is left. */
  method Sort<T(==, !new)>(s: set<T>, less: (T, T) -> bool) returns (q: seq<T>)
    requires TotalOn(s, less)
    ensures q == Sorted(s, less) && SortedOf(q, s, less)
  {
    q := [];
    var left := s;
    while left != {}
      invariant left <= s
      invariant forall x :: x in q <==> x in s - left
      invariant forall i, j | 0 <= i < j < |q| :: less(q[i], q[j])
      invariant forall x, y | x in q && y in left :: less(x, y)
      decreases |left|
    {
      ghost var least := LeastExists(left, less);
      var m :| m in left && forall y | y in left && y != m :: less(m, y);
      q := q + [m];
      left := left - {m};
    }
    assert SortedOf(q, s, less);
    SortedExists(s, less);
    SortedUnique(q, Sorted(s, less), s, less);
  }

  /** Sorting keeps every element, once. */
  lemma {:induction false} SortedHasAll<T(!new)>(q: seq<T>, s: set<T>, less: (T, T) -> bool)
    requires SortedOf(q, s, less) && TotalOn(s, less)
    ensures |q| == |s|
    decreases |q|
  {
    EmptyTogether(q, s, less);
    if q != [] {
      DropFirst(q, s, less);
      SortedHasAll(q[1..], s - {q[0]}, less);
    }
  }

  /** Go's order on strings. */
  predicate StrLess(a: string, b: string) {
    b != [] && (a == [] || a[0] < b[0] || (a[0] == b[0] && StrLess(a[1..], b[1..])))
  }

  lemma {:induction false} StrTotal(a: string, b: string)
    ensures a == b || StrLess(a, b) || StrLess(b, a)
    ensures !StrLess(a, a)
    ensures !(StrLess(a, b) && StrLess(b, a))
  {
    if a != [] { StrTotal(a[1..], if b == [] then [] else b[1..]); }
    if a != [] && b != [] && a[0] == b[0] && a[1..] == b[1..] {
      assert a == [a[0]] + a[1..] && b == [b[0]] + b[1..];
    }
  }

  lemma {:induction false} StrTransitive(a: string, b: string, c: string)
    requires StrLess(a, b) && StrLess(b, c)
    ensures StrLess(a, c)
  {
    if a != [] && a[0] == b[0] && b[0] == c[0] { StrTransitive(a[1..], b[1..], c[1..]); }
  }

  lemma StrTotalOn(s: set<string>)
    ensures TotalOn(s, StrLess)
  {
    forall x, y ensures !StrLess(x, x) && (x == y || StrLess(x, y) || StrLess(y, x)) { StrTotal(x, y); }
    forall x, y, z | StrLess(x, y) && StrLess(y, z) ensures StrLess(x, z) { StrTransitive(x, y, z); }
  }

  /** The order of the first place where the texts differ; a text comes after its own beginnings. */
  lemma {:induction false} StrLessIff(a: string, b: string)
    ensures StrLess(a, b) <==> exists n: nat ::
              n <= |a| && n < |b| && a[..n] == b[..n] && (n < |a| ==> a[n] < b[n])
  {
    if a == [] && b != [] {
      assert a[..0] == b[..0];
    } else if a != [] && b != [] {
      StrLessIff(a[1..], b[1..]);
      if a[0] == b[0] {
        var p, q := a[1..], b[1..];
        if n: nat :| n <= |p| && n < |q| && p[..n] == q[..n] && (n < |p| ==> p[n] < q[n]) {
          assert a[..n + 1] == [a[0]] + a[1..][..n] && b[..n + 1] == [b[0]] + b[1..][..n];
        }
        if n: nat :| n <= |a| && n < |b| && a[..n] == b[..n] && (n < |a| ==> a[n] < b[n]) {
          assert n > 0 && a[1..][..n - 1] == a[..n][1..] && b[1..][..n - 1] == b[..n][1..];
        }
      } else if a[0] < b[0] {
        assert a[..0] == b[..0];
      } else if n: nat :| n <= |a| && n < |b| && a[..n] == b[..n] && (n < |a| ==> a[n] < b[n]) {
        if n > 0 { assert a[..n][0] == b[..n][0]; }
      }
    }
  }
}
