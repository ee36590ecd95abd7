/** sorted(items, key=...) where the key is a tuple of texts, and when its result does not depend on the input order. */
module Sorting {
  import opened Ordering

  /** Python's order on tuples of text. */
  predicate LeqKeys(a: seq<string>, b: seq<string>) {
    a == [] || (b != [] && ((a[0] != b[0] && Leq(a[0], b[0])) || (a[0] == b[0] && LeqKeys(a[1..], b[1..]))))
  }

  lemma {:induction false} LeqKeysTotal(a: seq<string>, b: seq<string>)
    ensures LeqKeys(a, b) || LeqKeys(b, a)
  {
    if a != [] && b != [] {
      LeqTotal(a[0], b[0]);
      LeqKeysTotal(a[1..], b[1..]);
    }
  }

  lemma {:induction false} LeqKeysAntisymmetric(a: seq<string>, b: seq<string>)
    requires LeqKeys(a, b) && LeqKeys(b, a)
    ensures a == b
  {
    if a != [] && b != [] {
      if a[0] != b[0] {
        LeqAntisymmetric(a[0], b[0]);
      } else {
        LeqKeysAntisymmetric(a[1..], b[1..]);
        assert a == [a[0]] + a[1..] && b == [b[0]] + b[1..];
      }
    }
  }

  lemma {:induction false} LeqKeysTransitive(a: seq<string>, b: seq<string>, c: seq<string>)
    requires LeqKeys(a, b) && LeqKeys(b, c)
    ensures LeqKeys(a, c)
  {
    if a != [] && b != [] && c != [] {
      if a[0] == b[0] == c[0] {
        LeqKeysTransitive(a[1..], b[1..], c[1..]);
      } else {
        LeqTotal(b[0], b[0]);
        LeqTransitive(a[0], b[0], c[0]);
        if a[0] == c[0] {
          LeqAntisymmetric(a[0], b[0]);
        }
      }
    }
  }

  predicate SortedBy<T>(s: seq<T>, key: T -> seq<string>) {
    forall i, j | 0 <= i < j < |s| :: LeqKeys(key(s[i]), key(s[j]))
  }

  function Insert<T>(x: T, s: seq<T>, key: T -> seq<string>): seq<T> {
    if s == [] then [x]
    else if LeqKeys(key(x), key(s[0])) then [x] + s
    else [s[0]] + Insert(x, s[1..], key)
  }

  lemma {:induction false} InsertArranges<T>(x: T, s: seq<T>, key: T -> seq<string>)
    ensures multiset(Insert(x, s, key)) == multiset(s) + multiset{x}
  {
    if s != [] {
      assert s == [s[0]] + s[1..];
      InsertArranges(x, s[1..], key);
    }
  }

  lemma {:induction false} InsertKeepsSorted<T>(x: T, s: seq<T>, key: T -> seq<string>)
    requires SortedBy(s, key)
    ensures SortedBy(Insert(x, s, key), key)
  {
    if s != [] {
      var rest := s[1..];
      if LeqKeys(key(x), key(s[0])) {
        forall i | 0 <= i < |s| ensures LeqKeys(key(x), key(s[i])) {
          if i > 0 {
            LeqKeysTransitive(key(x), key(s[0]), key(s[i]));
          }
        }
      } else {
        LeqKeysTotal(key(x), key(s[0]));
        InsertKeepsSorted(x, rest, key);
        var r := Insert(x, rest, key);
        InsertArranges(x, rest, key);
        forall i | 0 <= i < |r| ensures LeqKeys(key(s[0]), key(r[i])) {
          assert r[i] in multiset(r);
          if r[i] != x {
            assert r[i] in multiset(rest);
            var j :| 0 <= j < |rest| && rest[j] == r[i];
            assert s[j + 1] == r[i];
          }
        }
      }
    }
  }

  function SortBy<T>(s: seq<T>, key: T -> seq<string>): seq<T> {
    if s == [] then [] else Insert(s[0], SortBy(s[1..], key), key)
  }

  /** Sorting rearranges. */
  lemma {:induction false} SortByArranges<T>(s: seq<T>, key: T -> seq<string>)
    ensures multiset(SortBy(s, key)) == multiset(s)
    ensures |SortBy(s, key)| == |s|
  {
    if s != [] {
      assert s == [s[0]] + s[1..];
      SortByArranges(s[1..], key);
      InsertArranges(s[0], SortBy(s[1..], key), key);
    }
    assert |multiset(SortBy(s, key))| == |SortBy(s, key)| && |multiset(s)| == |s|;
  }

  lemma {:induction false} SortBySorts<T>(s: seq<T>, key: T -> seq<string>)
    ensures SortedBy(SortBy(s, key), key)
  {
    if s != [] {
      SortBySorts(s[1..], key);
      InsertKeepsSorted(s[0], SortBy(s[1..], key), key);
    }
  }

  /** No two different elements share a key. */
  predicate KeyDetermines<T(==)>(s: seq<T>, key: T -> seq<string>) {
    forall i, j | 0 <= i < |s| && 0 <= j < |s| && key(s[i]) == key(s[j]) :: s[i] == s[j]
  }

  lemma HeadsAgree<T>(a: seq<T>, b: seq<T>, key: T -> seq<string>)
    requires a != [] && b != [] && SortedBy(a, key) && SortedBy(b, key) && KeyDetermines(a, key)
    requires a[0] in b && b[0] in a
    ensures a[0] == b[0]
  {
    var i :| 0 <= i < |b| && b[i] == a[0];
    var j :| 0 <= j < |a| && a[j] == b[0];
    LeqKeysTotal(key(a[0]), key(a[0]));
    assert LeqKeys(key(b[0]), key(b[i])) && LeqKeys(key(a[0]), key(a[j]));
    LeqKeysAntisymmetric(key(a[0]), key(b[0]));
  }

  lemma TailsAgree<T>(a: seq<T>, b: seq<T>)
    requires a != [] && b != [] && a[0] == b[0] && multiset(a) == multiset(b)
    ensures multiset(a[1..]) == multiset(b[1..])
  {
    assert a == [a[0]] + a[1..] && b == [b[0]] + b[1..];
    assert multiset(a[1..]) == multiset(a) - multiset{a[0]};
    assert multiset(b[1..]) == multiset(b) - multiset{b[0]};
  }

  lemma SameLength<T>(a: seq<T>, b: seq<T>)
    requires multiset(a) == multiset(b)
    ensures |a| == |b|
  {
    assert |multiset(a)| == |a| && |multiset(b)| == |b|;
  }

  /** Two sorted arrangements of the same elements are the same sequence. */
  lemma {:induction false} SortedArrangementIsUnique<T>(a: seq<T>, b: seq<T>, key: T -> seq<string>)
    requires SortedBy(a, key) && SortedBy(b, key) && multiset(a) == multiset(b) && KeyDetermines(a, key)
    ensures a == b
  {
    SameLength(a, b);
    if a != [] {
      SameElements(a, b);
      HeadsAgree(a, b, key);
      TailsAgree(a, b);
      assert KeyDetermines(a[1..], key);
      SortedArrangementIsUnique(a[1..], b[1..], key);
      assert a == [a[0]] + a[1..] && b == [b[0]] + b[1..];
    }
  }

  /** Sorting forgets the order of its input. */
  lemma SortForgetsOrder<T>(a: seq<T>, b: seq<T>, key: T -> seq<string>)
    requires multiset(a) == multiset(b) && KeyDetermines(a, key)
    ensures SortBy(a, key) == SortBy(b, key)
  {
    SortBySorts(a, key);
    SortBySorts(b, key);
    SortByArranges(a, key);
    SortByArranges(b, key);
    KeyDeterminesArrangement(a, SortBy(a, key), key);
    SortedArrangementIsUnique(SortBy(a, key), SortBy(b, key), key);
  }

  lemma KeyDeterminesArrangement<T>(a: seq<T>, r: seq<T>, key: T -> seq<string>)
    requires multiset(a) == multiset(r) && KeyDetermines(a, key)
    ensures KeyDetermines(r, key)
  {
    forall i, j | 0 <= i < |r| && 0 <= j < |r| && key(r[i]) == key(r[j])
      ensures r[i] == r[j]
    {
      assert r[i] in multiset(a) && r[j] in multiset(a);
      var k :| 0 <= k < |a| && a[k] == r[i];
      var l :| 0 <= l < |a| && a[l] == r[j];
    }
  }

  lemma SameElements<T>(a: seq<T>, r: seq<T>)
    requires multiset(a) == multiset(r)
    ensures forall x :: x in a <==> x in r
  {
    forall x
      ensures x in a <==> x in r
    {
      assert x in a <==> x in multiset(a);
      assert x in r <==> x in multiset(r);
    }
  }
}
