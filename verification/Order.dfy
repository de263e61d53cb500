/** Lexicographic order on sequences of codes: byte order, which on UTF-8 is code point order. */
module Order {

  predicate AtMost(a: seq<int>, b: seq<int>) {
    if a == [] then true
    else if b == [] then false
    else a[0] < b[0] || (a[0] == b[0] && AtMost(a[1..], b[1..]))
  }

  lemma {:induction false} AtMostIsTotal(a: seq<int>, b: seq<int>)
    ensures AtMost(a, b) || AtMost(b, a)
    ensures AtMost(a, b) && AtMost(b, a) ==> a == b
  {
    if a == [] || b == [] {
    } else {
      AtMostIsTotal(a[1..], b[1..]);
      assert a == [a[0]] + a[1..] && b == [b[0]] + b[1..];
    }
  }

  lemma {:induction false} AtMostIsTransitive(a: seq<int>, b: seq<int>, c: seq<int>)
    requires AtMost(a, b) && AtMost(b, c)
    ensures AtMost(a, c)
  {
    if a == [] {
    } else if a[0] == b[0] == c[0] {
      AtMostIsTransitive(a[1..], b[1..], c[1..]);
    }
  }

  /** The first place where the sequences differ, and there the first one is smaller. */
  ghost predicate SmallerAt(a: seq<int>, b: seq<int>, i: int) {
    0 <= i < |a| && i < |b| && a[..i] == b[..i] && a[i] < b[i]
  }

  /** Ascending order: the first is a beginning of the second, or is smaller where they first differ. */
  lemma {:induction false} AtMostIsLexicographic(a: seq<int>, b: seq<int>)
    ensures AtMost(a, b) <==> a <= b || exists i :: SmallerAt(a, b, i)
  {
    if a == [] || b == [] {
    } else {
      var a', b' := a[1..], b[1..];
      AtMostIsLexicographic(a', b');
      assert a == [a[0]] + a' && b == [b[0]] + b';
      if a[0] < b[0] {
        assert SmallerAt(a, b, 0);
      } else if a[0] == b[0] {
        if i :| SmallerAt(a', b', i) {
          assert a[..i + 1] == [a[0]] + a'[..i] && b[..i + 1] == [b[0]] + b'[..i];
          assert SmallerAt(a, b, i + 1);
        }
        if i :| SmallerAt(a, b, i) {
          assert i > 0 && a[..i][1..] == a'[..i - 1] && b[..i][1..] == b'[..i - 1];
          assert SmallerAt(a', b', i - 1);
        }
        assert a <= b <==> a' <= b';
      } else {
        forall i
          ensures !SmallerAt(a, b, i)
        {
          if 0 < i <= |a| && i <= |b| {
            assert a[..i][0] == a[0] && b[..i][0] == b[0];
          }
        }
      }
    }
  }

  /** The code points of a string. */
  function Codes(s: string): (r: seq<int>)
    ensures |r| == |s| && forall i :: 0 <= i < |s| ==> r[i] == s[i] as int
  {
    seq(|s|, i requires 0 <= i < |s| => s[i] as int)
  }

  lemma CodesAreInjective(a: string, b: string)
    requires Codes(a) == Codes(b)
    ensures a == b
  {
    assert |a| == |b|;
    forall i | 0 <= i < |a|
      ensures a[i] == b[i]
    {
      assert Codes(a)[i] == Codes(b)[i];
    }
  }

  // ---------- Sorting by key ----------

  function Insert<T>(xs: seq<T>, x: T, key: T -> seq<int>): (r: seq<T>)
    ensures multiset(r) == multiset(xs) + multiset{x}
  {
    if xs == [] || AtMost(key(x), key(xs[0])) then [x] + xs
    else
      assert xs == [xs[0]] + xs[1..];
      [xs[0]] + Insert(xs[1..], x, key)
  }

  function Sort<T>(xs: seq<T>, key: T -> seq<int>): (r: seq<T>)
    ensures multiset(r) == multiset(xs)
  {
    if xs == [] then []
    else
      assert xs == [xs[0]] + xs[1..];
      Insert(Sort(xs[1..], key), xs[0], key)
  }

  ghost predicate DistinctKeys<T>(xs: seq<T>, key: T -> seq<int>) {
    forall i, j :: 0 <= i < j < |xs| ==> key(xs[i]) != key(xs[j])
  }

  /** In strictly ascending key order. */
  ghost predicate Sorted<T>(xs: seq<T>, key: T -> seq<int>) {
    forall i, j :: 0 <= i < j < |xs| ==> AtMost(key(xs[i]), key(xs[j])) && key(xs[i]) != key(xs[j])
  }

  lemma SameMembers<T(!new)>(xs: seq<T>, ys: seq<T>)
    requires multiset(xs) == multiset(ys)
    ensures |xs| == |ys| && forall x :: x in xs <==> x in ys
  {
    assert |xs| == |multiset(xs)| == |multiset(ys)| == |ys|;
    forall x
      ensures x in xs <==> x in ys
    {
      assert x in xs <==> x in multiset(xs);
      assert x in ys <==> x in multiset(ys);
    }
  }

  lemma TailMultiset<T(!new)>(xs: seq<T>)
    requires xs != []
    ensures multiset(xs[1..]) == multiset(xs) - multiset{xs[0]}
  {
    assert xs == [xs[0]] + xs[1..];
  }

  lemma SortedCons<T(!new)>(x: T, xs: seq<T>, key: T -> seq<int>)
    requires Sorted(xs, key) && forall y :: y in xs ==> AtMost(key(x), key(y)) && key(x) != key(y)
    ensures Sorted([x] + xs, key)
  {
    var r := [x] + xs;
    forall i, j | 0 <= i < j < |r|
      ensures AtMost(key(r[i]), key(r[j])) && key(r[i]) != key(r[j])
    {
      assert r[j] == xs[j - 1];
      if i > 0 {
        assert r[i] == xs[i - 1];
      }
    }
  }

  lemma HeadIsLeast<T(!new)>(xs: seq<T>, x: T, key: T -> seq<int>)
    requires Sorted(xs, key) && x in xs
    ensures AtMost(key(xs[0]), key(x)) && (key(x) == key(xs[0]) ==> x == xs[0])
  {
    var i :| 0 <= i < |xs| && xs[i] == x;
    AtMostIsTotal(key(x), key(x));
  }

  lemma SortedTail<T(!new)>(xs: seq<T>, key: T -> seq<int>)
    requires Sorted(xs, key) && xs != []
    ensures Sorted(xs[1..], key) && forall x :: x in xs[1..] ==> AtMost(key(xs[0]), key(x)) && key(xs[0]) != key(x)
  {
    forall x | x in xs[1..]
      ensures AtMost(key(xs[0]), key(x)) && key(xs[0]) != key(x)
    {
      var i :| 0 <= i < |xs[1..]| && xs[1..][i] == x;
      assert xs[i + 1] == x;
    }
  }

  lemma {:induction false} InsertSorted<T(!new)>(xs: seq<T>, x: T, key: T -> seq<int>)
    requires Sorted(xs, key) && forall y :: y in xs ==> key(y) != key(x)
    ensures Sorted(Insert(xs, x, key), key)
  {
    if xs == [] {
    } else if AtMost(key(x), key(xs[0])) {
      forall y | y in xs
        ensures AtMost(key(x), key(y))
      {
        HeadIsLeast(xs, y, key);
        AtMostIsTransitive(key(x), key(xs[0]), key(y));
      }
      SortedCons(x, xs, key);
    } else {
      SortedTail(xs, key);
      InsertSorted(xs[1..], x, key);
      var r := Insert(xs[1..], x, key);
      SameMembers(r, xs[1..] + [x]);
      AtMostIsTotal(key(x), key(xs[0]));
      forall y | y in r
        ensures AtMost(key(xs[0]), key(y)) && key(xs[0]) != key(y)
      {
        assert y in xs[1..] + [x];
        assert y == x || y in xs[1..];
      }
      SortedCons(xs[0], r, key);
    }
  }

  /** Elements with distinct keys are sorted into strictly ascending order. */
  lemma {:induction false} SortSorted<T(!new)>(xs: seq<T>, key: T -> seq<int>)
    requires DistinctKeys(xs, key)
    ensures Sorted(Sort(xs, key), key)
  {
    if xs == [] {
    } else {
      SortSorted(xs[1..], key);
      var tail := Sort(xs[1..], key);
      SameMembers(tail, xs[1..]);
      forall x | x in tail
        ensures key(x) != key(xs[0])
      {
        assert x in xs[1..];
        var i :| 0 <= i < |xs[1..]| && xs[1..][i] == x;
        assert xs[i + 1] == x;
      }
      InsertSorted(tail, xs[0], key);
    }
  }

  lemma SameHead<T(!new)>(a: seq<T>, b: seq<T>, key: T -> seq<int>)
    requires Sorted(a, key) && Sorted(b, key) && a != [] && b != [] && a[0] in b && b[0] in a
    ensures a[0] == b[0]
  {
    HeadIsLeast(a, b[0], key);
    HeadIsLeast(b, a[0], key);
    AtMostIsTotal(key(a[0]), key(b[0]));
  }

  /** There is one strictly ascending order of given elements. */
  lemma {:induction false} SortedIsUnique<T(!new)>(a: seq<T>, b: seq<T>, key: T -> seq<int>)
    requires Sorted(a, key) && Sorted(b, key) && multiset(a) == multiset(b)
    ensures a == b
  {
    SameMembers(a, b);
    if a == [] {
    } else {
      assert a[0] in a && b[0] in b;
      SameHead(a, b, key);
      TailMultiset(a);
      TailMultiset(b);
      SortedTail(a, key);
      SortedTail(b, key);
      SortedIsUnique(a[1..], b[1..], key);
      HeadAndTail(a, b);
    }
  }

  lemma HeadAndTail<T(!new)>(a: seq<T>, b: seq<T>)
    requires a != [] && b != [] && a[0] == b[0] && a[1..] == b[1..]
    ensures a == b
  {
    assert a == [a[0]] + a[1..] && b == [b[0]] + b[1..];
  }
}
