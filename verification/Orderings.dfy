/** Lexicographic keys and the stable sort by key that the library sorts stand for. */
module Orderings {

  /** Lexicographic order; a proper prefix comes first, as for tuples and strings. */
  predicate LexLeq(a: seq<int>, b: seq<int>) {
    a == [] || (b != [] && (a[0] < b[0] || (a[0] == b[0] && LexLeq(a[1..], b[1..]))))
  }

  lemma {:induction false} LexTotal(a: seq<int>, b: seq<int>)
    ensures LexLeq(a, b) || LexLeq(b, a)
    ensures LexLeq(a, b) && LexLeq(b, a) ==> a == b
  {
    if a != [] && b != [] && a[0] == b[0] {
      LexTotal(a[1..], b[1..]);
      assert a == [a[0]] + a[1..] && b == [b[0]] + b[1..];
    }
  }

  lemma {:induction false} LexTransitive(a: seq<int>, b: seq<int>, c: seq<int>)
    requires LexLeq(a, b) && LexLeq(b, c)
    ensures LexLeq(a, c)
  {
    if a != [] && a[0] == b[0] && b[0] == c[0] {
      LexTransitive(a[1..], b[1..], c[1..]);
    }
  }

  lemma {:induction false} LexPrefix(p: seq<int>, a: seq<int>, b: seq<int>)
    ensures LexLeq(p + a, p + b) <==> LexLeq(a, b)
  {
    if p == [] {
      assert p + a == a && p + b == b;
    } else {
      assert (p + a)[1..] == p[1..] + a && (p + b)[1..] == p[1..] + b;
      LexPrefix(p[1..], a, b);
    }
  }

  function NameKey(name: string): seq<int> {
    seq(|name|, i requires 0 <= i < |name| => name[i] as int)
  }

  ghost predicate SortedBy<T>(s: seq<T>, key: T -> seq<int>) {
    forall i, k | 0 <= i < k < |s| :: LexLeq(key(s[i]), key(s[k]))
  }

  function Insert<T>(x: T, s: seq<T>, key: T -> seq<int>): (r: seq<T>)
    ensures multiset(r) == multiset([x] + s)
  {
    if s == [] || LexLeq(key(x), key(s[0])) then [x] + s
    else
      assert s == [s[0]] + s[1..];
      [s[0]] + Insert(x, s[1..], key)
  }

  lemma {:induction false} InsertKeepsSorted<T>(x: T, s: seq<T>, key: T -> seq<int>)
    requires SortedBy(s, key)
    ensures SortedBy(Insert(x, s, key), key)
  {
    if s == [] {
    } else if LexLeq(key(x), key(s[0])) {
      forall i | 0 <= i < |s| ensures LexLeq(key(x), key(s[i])) {
        if i > 0 { LexTransitive(key(x), key(s[0]), key(s[i])); }
      }
    } else {
      var rest := Insert(x, s[1..], key);
      InsertKeepsSorted(x, s[1..], key);
      LexTotal(key(x), key(s[0]));
      forall i | 0 <= i < |rest| ensures LexLeq(key(s[0]), key(rest[i])) {
        assert rest[i] in multiset(rest);
        assert rest[i] in [x] + s[1..];
      }
    }
  }

  function Sort<T>(s: seq<T>, key: T -> seq<int>): (r: seq<T>)
    ensures multiset(r) == multiset(s)
  {
    if s == [] then [] else
    assert s == [s[0]] + s[1..];
    Insert(s[0], Sort(s[1..], key), key)
  }

  lemma {:induction false} SortSorts<T>(s: seq<T>, key: T -> seq<int>)
    ensures SortedBy(Sort(s, key), key)
  {
    if s != [] {
      SortSorts(s[1..], key);
      InsertKeepsSorted(s[0], Sort(s[1..], key), key);
    }
  }

  lemma SortKeepsElements<T>(s: seq<T>, key: T -> seq<int>)
    ensures |Sort(s, key)| == |s|
    ensures forall x :: x in Sort(s, key) <==> x in s
  {
    var r := Sort(s, key);
    assert |multiset(r)| == |multiset(s)|;
    forall x ensures x in r <==> x in s {
      assert x in multiset(r) <==> x in multiset(s);
    }
  }

  lemma FirstIsLeast<T>(s: seq<T>, key: T -> seq<int>, x: T)
    requires SortedBy(s, key) && x in s
    ensures LexLeq(key(s[0]), key(x))
  {
    var i :| 0 <= i < |s| && s[i] == x;
    if i == 0 { LexTotal(key(x), key(x)); }
  }

  lemma SameElements<T>(s: seq<T>, t: seq<T>)
    requires multiset(s) == multiset(t)
    ensures forall x :: x in s <==> x in t
  {
    forall x ensures x in s <==> x in t {
      assert x in multiset(s) <==> x in multiset(t);
    }
  }

  // ----- Distinctness -----

  lemma DistinctKept<T>(s: seq<T>, t: seq<T>)
    requires multiset(s) == multiset(t)
    requires forall i, k | 0 <= i < k < |s| :: s[i] != s[k]
    ensures forall i, k | 0 <= i < k < |t| :: t[i] != t[k]
  {
    DistinctMeansOnce(s);
    OnceMeansDistinct(t);
  }

  lemma {:induction false} DistinctMeansOnce<T>(s: seq<T>)
    requires forall i, k | 0 <= i < k < |s| :: s[i] != s[k]
    ensures forall x :: multiset(s)[x] <= 1
  {
    if s != [] {
      DistinctMeansOnce(s[1..]);
      assert s == [s[0]] + s[1..];
      assert s[0] !in s[1..];
    }
  }

  lemma {:induction false} OnceMeansDistinct<T>(s: seq<T>)
    requires forall x :: multiset(s)[x] <= 1
    ensures forall i, k | 0 <= i < k < |s| :: s[i] != s[k]
  {
    if s != [] {
      assert s == [s[0]] + s[1..];
      assert multiset(s)[s[0]] == 1 + multiset(s[1..])[s[0]];
      forall x ensures multiset(s[1..])[x] <= multiset(s)[x] {
        assert multiset(s) == multiset{s[0]} + multiset(s[1..]);
      }
      OnceMeansDistinct(s[1..]);
      assert s[0] !in multiset(s[1..]);
      forall k | 0 < k < |s| ensures s[0] != s[k] {
        assert s[k] in multiset(s[1..]);
      }
    }
  }
}
