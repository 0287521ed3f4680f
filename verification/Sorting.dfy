// Sorting by a string key, and what makes its result unique.
module Sorting {

  /** Go's order on strings. */
  predicate StrLe(a: string, b: string)
  {
    a == "" || (b != "" && (a[0] < b[0] || (a[0] == b[0] && StrLe(a[1..], b[1..]))))
  }

  lemma {:induction false} StrLeTotal(a: string, b: string)
    ensures StrLe(a, b) || StrLe(b, a)
    ensures StrLe(a, b) && StrLe(b, a) ==> a == b
  {
    if a != "" && b != "" {
      StrLeTotal(a[1..], b[1..]);
      assert a == [a[0]] + a[1..] && b == [b[0]] + b[1..];
    }
  }

  lemma {:induction false} StrLeTransitive(a: string, b: string, c: string)
    requires StrLe(a, b) && StrLe(b, c)
    ensures StrLe(a, c)
  {
    if a != "" && a[0] == b[0] == c[0] {
      StrLeTransitive(a[1..], b[1..], c[1..]);
    }
  }

  /** The first character in which two strings differ decides; a string comes before its extensions. */
  lemma {:induction false} FirstDifference(common: string, a: string, b: string)
    ensures StrLe(common, common + b)
    ensures a != "" && b != "" && a[0] != b[0] ==> (StrLe(common + a, common + b) <==> a[0] < b[0])
  {
    if common == "" {
      assert common + a == a && common + b == b;
    } else {
      assert (common + a)[1..] == common[1..] + a && (common + b)[1..] == common[1..] + b;
      FirstDifference(common[1..], a, b);
    }
  }

  ghost predicate IsSorted<T>(s: seq<T>, key: T -> string)
  {
    forall i, j | 0 <= i <= j < |s| :: StrLe(key(s[i]), key(s[j]))
  }

  ghost predicate Distinct<T>(s: seq<T>, key: T -> string)
  {
    forall i, j | 0 <= i < j < |s| :: key(s[i]) != key(s[j])
  }

  function Insert<T>(x: T, s: seq<T>, key: T -> string): seq<T>
  {
    if s == [] then [x]
    else if StrLe(key(x), key(s[0])) then [x] + s
    else [s[0]] + Insert(x, s[1..], key)
  }

  function Sorted<T>(s: seq<T>, key: T -> string): seq<T>
  {
    if s == [] then [] else Insert(s[0], Sorted(s[1..], key), key)
  }

  lemma SortedCons<T>(x: T, s: seq<T>, key: T -> string)
    requires IsSorted(s, key) && forall y | y in s :: StrLe(key(x), key(y))
    ensures IsSorted([x] + s, key)
  {
    StrLeTotal(key(x), key(x));
    hide StrLe;
    forall i, j | 0 <= i <= j < |s| + 1 ensures StrLe(key(([x] + s)[i]), key(([x] + s)[j])) {
      if i > 0 { assert StrLe(key(s[i - 1]), key(s[j - 1])); }
      else if j > 0 { assert s[j - 1] in s; }
    }
  }

  lemma {:induction false} InsertKeeps<T>(x: T, s: seq<T>, key: T -> string)
    requires IsSorted(s, key)
    ensures IsSorted(Insert(x, s, key), key) && multiset(Insert(x, s, key)) == multiset{x} + multiset(s)
  {
    hide StrLe;
    if s == [] {
      SortedCons(x, [], key);
      assert [x] + [] == [x];
    } else {
      StrLeTotal(key(x), key(s[0]));
      assert s == [s[0]] + s[1..];
      if StrLe(key(x), key(s[0])) {
        forall y | y in s ensures StrLe(key(x), key(y)) {
          StrLeTransitive(key(x), key(s[0]), key(y));
        }
        SortedCons(x, s, key);
      } else {
        var t := Insert(x, s[1..], key);
        InsertKeeps(x, s[1..], key);
        forall y | y in t ensures StrLe(key(s[0]), key(y)) {
          assert y in multiset(t);
          assert y == x || y in s[1..];
        }
        SortedCons(s[0], t, key);
      }
    }
  }

  /** Sorting orders the list and keeps its elements. */
  lemma {:induction false} SortedSorts<T>(s: seq<T>, key: T -> string)
    ensures IsSorted(Sorted(s, key), key) && multiset(Sorted(s, key)) == multiset(s)
    ensures forall x :: x in Sorted(s, key) <==> x in s
  {
    if s != [] {
      SortedSorts(s[1..], key);
      InsertKeeps(s[0], Sorted(s[1..], key), key);
      assert s == [s[0]] + s[1..];
    }
    assert forall x :: x in Sorted(s, key) <==> x in multiset(Sorted(s, key));
  }

  lemma SameHead<T>(a: seq<T>, b: seq<T>, key: T -> string)
    requires IsSorted(a, key) && IsSorted(b, key) && Distinct(a, key) && multiset(a) == multiset(b) && a != []
    ensures b != [] && a[0] == b[0]
  {
    assert a[0] in multiset(b);
    assert b[0] in multiset(a);
    var i :| 0 <= i < |a| && a[i] == b[0];
    var j :| 0 <= j < |b| && b[j] == a[0];
    StrLeTotal(key(a[0]), key(b[0]));
    hide StrLe;
    assert StrLe(key(a[0]), key(a[i])) && StrLe(key(b[0]), key(b[j]));
  }

  lemma Tail<T>(a: seq<T>, key: T -> string)
    requires a != []
    ensures multiset(a[1..]) == multiset(a) - multiset{a[0]} && a == [a[0]] + a[1..]
    ensures IsSorted(a, key) ==> IsSorted(a[1..], key)
    ensures Distinct(a, key) ==> Distinct(a[1..], key)
  {
  }

  /** Two sorted lists of the same elements with distinct keys are the same list. */
  lemma {:induction false} SortedUnique<T>(a: seq<T>, b: seq<T>, key: T -> string)
    requires IsSorted(a, key) && IsSorted(b, key) && Distinct(a, key) && multiset(a) == multiset(b)
    ensures a == b
  {
    if a == [] {
      assert |multiset(b)| == |b|;
    } else {
      SameHead(a, b, key);
      hide StrLe, IsSorted, Distinct;
      Tail(a, key);
      Tail(b, key);
      SortedUnique(a[1..], b[1..], key);
    }
  }

  /** So the order in which distinct keys come in does not matter. */
  lemma OrderDoesNotMatter<T>(a: seq<T>, b: seq<T>, key: T -> string)
    requires multiset(a) == multiset(b) && Distinct(a, key)
    ensures Sorted(a, key) == Sorted(b, key)
  {
    SortedSorts(a, key);
    SortedSorts(b, key);
    DistinctPermuted(a, Sorted(a, key), key);
    SortedUnique(Sorted(a, key), Sorted(b, key), key);
  }

  lemma DistinctPermuted<T>(a: seq<T>, b: seq<T>, key: T -> string)
    requires Distinct(a, key) && multiset(a) == multiset(b)
    ensures Distinct(b, key)
  {
    forall i, j | 0 <= i < j < |b| ensures key(b[i]) != key(b[j]) {
      if key(b[i]) == key(b[j]) {
        assert b[i] in multiset(a) && b[j] in multiset(a);
        var k :| 0 <= k < |a| && a[k] == b[i];
        var l :| 0 <= l < |a| && a[l] == b[j];
        assert k == l;
        TwiceInMultiset(b, i, j);
        OnceInMultiset(a, k, key);
      }
    }
  }

  lemma TwiceInMultiset<T>(b: seq<T>, i: nat, j: nat)
    requires i < j < |b| && b[i] == b[j]
    ensures multiset(b)[b[i]] >= 2
  {
    assert b == b[..i] + [b[i]] + b[i + 1..j] + [b[j]] + b[j + 1..];
  }

  lemma OnceInMultiset<T>(a: seq<T>, k: nat, key: T -> string)
    requires k < |a| && Distinct(a, key)
    ensures multiset(a)[a[k]] == 1
  {
    assert a == a[..k] + [a[k]] + a[k + 1..];
    assert a[k] !in a[..k] && a[k] !in a[k + 1..];
  }

  lemma SameElements<T>(a: seq<T>, b: seq<T>, key: T -> string)
    requires Distinct(a, key) && Distinct(b, key) && forall x :: x in a <==> x in b
    ensures multiset(a) == multiset(b)
  {
    forall x ensures multiset(a)[x] == multiset(b)[x] {
      if x in a {
        var i :| 0 <= i < |a| && a[i] == x;
        var j :| 0 <= j < |b| && b[j] == x;
        OnceInMultiset(a, i, key);
        OnceInMultiset(b, j, key);
      } else {
        assert x !in multiset(a) && x !in multiset(b);
      }
    }
  }

  /** A sorted list with distinct keys is determined by its elements. */
  lemma OneSortedList<T>(a: seq<T>, b: seq<T>, key: T -> string)
    requires IsSorted(a, key) && IsSorted(b, key) && Distinct(a, key) && Distinct(b, key)
    requires forall x :: x in a <==> x in b
    ensures a == b
  {
    SameElements(a, b, key);
    SortedUnique(a, b, key);
  }

  lemma SortedPair<T>(x: T, y: T, key: T -> string)
    requires StrLe(key(x), key(y))
    ensures Sorted([x, y], key) == [x, y] && Sorted([y], key) == [y]
  {
  }
}
