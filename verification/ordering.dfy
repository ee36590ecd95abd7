/** Python's order on text (by code point) and sorted() over a set of strings. */
module Ordering {

  predicate Leq(a: string, b: string) {
    a == [] || (b != [] && (a[0] < b[0] || (a[0] == b[0] && Leq(a[1..], b[1..]))))
  }

  lemma {:induction false} LeqTotal(a: string, b: string)
    ensures Leq(a, b) || Leq(b, a)
  {
    if a != [] && b != [] && a[0] == b[0] {
      LeqTotal(a[1..], b[1..]);
    }
  }

  lemma {:induction false} LeqAntisymmetric(a: string, b: string)
    requires Leq(a, b) && Leq(b, a)
    ensures a == b
  {
    if a != [] && b != [] {
      LeqAntisymmetric(a[1..], b[1..]);
      assert a == [a[0]] + a[1..] && b == [b[0]] + b[1..];
    }
  }

  lemma {:induction false} LeqTransitive(a: string, b: string, c: string)
    requires Leq(a, b) && Leq(b, c)
    ensures Leq(a, c)
  {
    if a != [] && b != [] && c != [] && a[0] == b[0] == c[0] {
      LeqTransitive(a[1..], b[1..], c[1..]);
    }
  }

  predicate IsLeast(m: string, s: set<string>) {
    m in s && forall x | x in s :: Leq(m, x)
  }

  lemma {:induction false} LeastExists(s: set<string>) returns (m: string)
    requires s != {}
    ensures IsLeast(m, s)
  {
    var x :| x in s;
    var rest := s - {x};
    LeqTotal(x, x);
    if rest == {} {
      assert s == {x};
      m := x;
    } else {
      var least := LeastExists(rest);
      LeqTotal(x, least);
      if Leq(x, least) {
        m := x;
        forall y | y in rest ensures Leq(x, y) {
          LeqTransitive(x, least, y);
        }
      } else {
        m := least;
      }
      assert forall y | y in s :: y == x || y in rest;
    }
  }

  function Least(s: set<string>): (m: string)
    requires s != {}
    ensures IsLeast(m, s)
  {
    LeastExistsFor(s);
    assert forall a, b | IsLeast(a, s) && IsLeast(b, s) :: a == b by {
      forall a, b | IsLeast(a, s) && IsLeast(b, s) ensures a == b {
        LeqAntisymmetric(a, b);
      }
    }
    var m :| m in s && IsLeast(m, s);
    m
  }

  lemma LeastExistsFor(s: set<string>)
    requires s != {}
    ensures exists m :: IsLeast(m, s)
  {
    var m := LeastExists(s);
  }

  predicate Ascending(r: seq<string>) {
    forall i, j | 0 <= i < j < |r| :: Leq(r[i], r[j]) && r[i] != r[j]
  }

  ghost predicate Sorts(r: seq<string>, s: set<string>) {
    Ascending(r) && (forall x | x in r :: x in s) && (forall x | x in s :: x in r)
  }

  /** One way to sort a set. */
  function Arrange(s: set<string>): (r: seq<string>)
    ensures Sorts(r, s)
    decreases |s|
  {
    if s == {} then []
    else
      var m := Least(s);
      var rest := Arrange(s - {m});
      assert forall i | 0 <= i < |rest| :: rest[i] in s - {m};
      [m] + rest
  }

  /** sorted(s): the one ascending list of a set. */
  ghost function Sorted(s: set<string>): (r: seq<string>)
    ensures forall x :: x in r <==> x in s
    ensures Ascending(r)
  {
    assert Sorts(Arrange(s), s);
    var r :| Sorts(r, s);
    r
  }

  lemma FirstIsUnique(a: seq<string>, b: seq<string>)
    requires Ascending(a) && Ascending(b) && a != [] && b != [] && a[0] in b && b[0] in a
    ensures a[0] == b[0]
  {
    var i :| 0 <= i < |b| && b[i] == a[0];
    var j :| 0 <= j < |a| && a[j] == b[0];
    if i != 0 && j != 0 {
      LeqAntisymmetric(a[0], b[0]);
    }
  }

  lemma {:induction false} SortedIsUnique(a: seq<string>, b: seq<string>, s: set<string>)
    requires Sorts(a, s) && Sorts(b, s)
    ensures a == b
  {
    assert a != [] ==> a[0] in s && a[0] in b;
    assert b != [] ==> b[0] in s && b[0] in a;
    if a != [] {
      FirstIsUnique(a, b);
      SortedIsUnique(a[1..], b[1..], s - {a[0]});
      assert a == [a[0]] + a[1..] && b == [b[0]] + b[1..];
    }
  }

  method SortedList(s: set<string>) returns (r: seq<string>)
    ensures r == Sorted(s)
  {
    r := Arrange(s);
    SortedIsUnique(r, Sorted(s), s);
  }

  // ---------------------------------------------------------------- maps

  /** Every value of a map replaced by f of it. */
  ghost predicate Maps<V, W>(r: map<string, W>, m: map<string, V>, f: V -> W) {
    r.Keys == m.Keys && forall k | k in m :: r[k] == f(m[k])
  }

  function MapOver<V, W>(m: map<string, V>, keys: seq<string>, f: V -> W): (r: map<string, W>)
    requires forall k | k in keys :: k in m
    ensures forall k :: k in r <==> k in keys
    ensures forall k | k in r :: r[k] == f(m[k])
  {
    if keys == [] then map[] else MapOver(m, keys[1..], f)[keys[0] := f(m[keys[0]])]
  }

  lemma MappedExists<V, W>(m: map<string, V>, f: V -> W)
    ensures exists r :: Maps(r, m, f)
  {
    assert Maps(MapOver(m, Arrange(m.Keys), f), m, f);
  }

  /** The map with f of each value. */
  ghost function MapValues<V, W>(m: map<string, V>, f: V -> W): (r: map<string, W>)
    ensures r.Keys == m.Keys
    ensures forall k | k in m :: r[k] == f(m[k])
  {
    MappedExists(m, f);
    var r :| Maps(r, m, f);
    r
  }

  method MapAll<V, W>(m: map<string, V>, f: V -> W) returns (r: map<string, W>)
    ensures r == MapValues(m, f)
  {
    r := map[];
    var left := m.Keys;
    while left != {}
      invariant left <= m.Keys && r.Keys == m.Keys - left
      invariant forall k | k in r :: r[k] == f(m[k])
    {
      var k :| k in left;
      r, left := r[k := f(m[k])], left - {k};
    }
  }
}
