/** Python's `sorted` on texts: by code points, stable. */
module Sorting {
  import opened Utf8
  import opened Seqs

  /** The order of texts: the first difference decides, and a prefix comes first. */
  predicate AtMost(a: Text, b: Text) {
    a == [] || (b != [] && (a[0] < b[0] || (a[0] == b[0] && AtMost(a[1..], b[1..]))))
  }

  lemma {:induction false} AtMostTotal(a: Text, b: Text)
    ensures AtMost(a, b) || AtMost(b, a)
  {
    if a != [] && b != [] { AtMostTotal(a[1..], b[1..]); }
  }

  lemma {:induction false} AtMostTransitive(a: Text, b: Text, c: Text)
    requires AtMost(a, b) && AtMost(b, c)
    ensures AtMost(a, c)
  {
    if a != [] && a[0] == b[0] == c[0] { AtMostTransitive(a[1..], b[1..], c[1..]); }
  }

  ghost predicate SortedBy<T>(s: seq<T>, key: T -> Text) {
    forall i, j | 0 <= i < j < |s| :: AtMost(key(s[i]), key(s[j]))
  }

  /** `x` put behind all elements whose keys are at most its own. */
  function Insert<T>(s: seq<T>, x: T, key: T -> Text): (r: seq<T>)
    ensures |r| == |s| + 1 && multiset(r) == multiset(s) + multiset{x}
  {
    if s == [] || AtMost(key(s[|s| - 1]), key(x)) then s + [x]
    else
      assert s == s[..|s| - 1] + [s[|s| - 1]];
      Insert(s[..|s| - 1], x, key) + [s[|s| - 1]]
  }

  /** `sorted(s, key=key)`. */
  function Sort<T>(s: seq<T>, key: T -> Text): (r: seq<T>)
    ensures |r| == |s| && multiset(r) == multiset(s)
  {
    if s == [] then []
    else
      assert s == s[..|s| - 1] + [s[|s| - 1]];
      Insert(Sort(s[..|s| - 1], key), s[|s| - 1], key)
  }

  lemma {:induction false} InsertSorted<T>(s: seq<T>, x: T, key: T -> Text)
    requires SortedBy(s, key)
    ensures SortedBy(Insert(s, x, key), key)
  {
    if s == [] { return; }
    var r, last := Insert(s, x, key), s[|s| - 1];
    if AtMost(key(last), key(x)) {
      forall i | 0 <= i < |s| ensures AtMost(key(s[i]), key(x)) {
        if i < |s| - 1 { AtMostTransitive(key(s[i]), key(last), key(x)); }
      }
    } else {
      AtMostTotal(key(last), key(x));
      InsertSorted(s[..|s| - 1], x, key);
      forall t | t in Insert(s[..|s| - 1], x, key) ensures AtMost(key(t), key(last)) {
        assert t in multiset(Insert(s[..|s| - 1], x, key));
        assert t == x || t in s[..|s| - 1];
      }
    }
  }

  /** The result is in order, and has the same elements, each as often as before. */
  lemma {:induction false} SortSorts<T>(s: seq<T>, key: T -> Text)
    ensures SortedBy(Sort(s, key), key)
    ensures forall t :: t in Sort(s, key) <==> t in s
    ensures Distinct(s) ==> Distinct(Sort(s, key))
  {
    if s != [] {
      SortSorts(s[..|s| - 1], key);
      InsertSorted(Sort(s[..|s| - 1], key), s[|s| - 1], key);
    }
    forall t ensures t in Sort(s, key) <==> t in s {
      assert t in Sort(s, key) <==> t in multiset(Sort(s, key));
      assert t in s <==> t in multiset(s);
    }
    if Distinct(s) { SameDistinct(s, Sort(s, key)); }
  }

  lemma SameDistinct<T>(s: seq<T>, r: seq<T>)
    requires Distinct(s) && multiset(s) == multiset(r)
    ensures Distinct(r)
  {
    forall i, j | 0 <= i < j < |r| ensures r[i] != r[j] {
      if r[i] == r[j] {
        assert r == r[..i] + [r[i]] + r[i + 1..j] + [r[j]] + r[j + 1..];
        assert multiset(r)[r[i]] >= 2;
        OnceEach(s, r[i]);
      }
    }
  }

  lemma {:induction false} OnceEach<T>(s: seq<T>, x: T)
    requires Distinct(s)
    ensures multiset(s)[x] <= 1
  {
    if s != [] {
      var rest := s[..|s| - 1];
      OnceEach(rest, x);
      assert s == rest + [s[|s| - 1]];
      assert s[|s| - 1] !in rest;
    }
  }
}
