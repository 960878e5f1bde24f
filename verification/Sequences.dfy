/** First occurrences, and sorting strings into code-point order. */
module Sequences {
  import opened Text

  /** Each element once, in the order of first mention: what dict.fromkeys keeps. */
  function Dedup<T(==)>(s: seq<T>): seq<T> {
    if s == [] then []
    else
      var front := Dedup(s[..|s| - 1]);
      var last := s[|s| - 1];
      if last in s[..|s| - 1] then front else front + [last]
  }

  predicate Distinct<T(==)>(s: seq<T>) {
    forall i, j :: 0 <= i < j < |s| ==> s[i] != s[j]
  }

  lemma {:induction false} DedupKeepsElements<T>(s: seq<T>)
    ensures forall x :: x in Dedup(s) <==> x in s
    ensures Distinct(Dedup(s))
    ensures |Dedup(s)| <= |s|
  {
    if s != [] {
      DedupKeepsElements(s[..|s| - 1]);
      assert s == s[..|s| - 1] + [s[|s| - 1]];
    }
  }

  /** The element first occurs at this position. */
  predicate FirstAt<T(==)>(s: seq<T>, p: int, x: T) { 0 <= p < |s| && s[p] == x && x !in s[..p] }

  /** What is mentioned first comes first. */
  lemma {:induction false} DedupInOrder<T>(s: seq<T>, i: nat, j: nat, p: int, q: int)
    requires i < j < |Dedup(s)| && FirstAt(s, p, Dedup(s)[i]) && FirstAt(s, q, Dedup(s)[j])
    ensures p < q
  {
    var front, last := s[..|s| - 1], s[|s| - 1];
    DedupKeepsElements(front);
    assert s == front + [last];
    if j == |Dedup(front)| {
      InFront(s, front, p, Dedup(front)[i]);
      assert forall k :: 0 <= k < |front| ==> front[k] == s[k] && front[k] in front;
    } else {
      InFront(s, front, p, Dedup(front)[i]);
      InFront(s, front, q, Dedup(front)[j]);
      DedupInOrder(front, i, j, p, q);
    }
  }

  lemma InFront<T>(s: seq<T>, front: seq<T>, p: int, x: T)
    requires s != [] && front == s[..|s| - 1] && x in front && FirstAt(s, p, x)
    ensures FirstAt(front, p, x)
  {
    assert p < |s| - 1;
    assert front[..p] == s[..p];
  }

  lemma {:induction false} DedupOfDistinct<T>(s: seq<T>)
    requires Distinct(s)
    ensures Dedup(s) == s
  {
    if s != [] {
      DedupOfDistinct(s[..|s| - 1]);
      assert s == s[..|s| - 1] + [s[|s| - 1]];
    }
  }

  function Insert(x: string, s: seq<string>): seq<string> {
    if s == [] || Before(x, s[0]) then [x] + s else [s[0]] + Insert(x, s[1..])
  }

  function Sort(s: seq<string>): seq<string> {
    if s == [] then [] else Insert(s[0], Sort(s[1..]))
  }

  ghost predicate Sorted(s: seq<string>) {
    forall i, j :: 0 <= i < j < |s| ==> Before(s[i], s[j])
  }

  lemma {:induction false} InsertSorts(x: string, s: seq<string>)
    requires Sorted(s)
    ensures Sorted(Insert(x, s))
    ensures multiset(Insert(x, s)) == multiset{x} + multiset(s)
  {
    if s == [] {
    } else if Before(x, s[0]) {
      forall j | 0 <= j < |s|
        ensures Before(x, s[j])
      {
        if j > 0 { BeforeTransitive(x, s[0], s[j]); }
      }
    } else {
      BeforeTotal(x, s[0]);
      InsertSorts(x, s[1..]);
      var rest := Insert(x, s[1..]);
      assert s == [s[0]] + s[1..];
      forall j | 0 <= j < |rest|
        ensures Before(s[0], rest[j])
      {
        assert rest[j] in multiset(rest);
        assert rest[j] == x || rest[j] in s[1..];
      }
    }
  }

  lemma {:induction false} SortSorts(s: seq<string>)
    ensures Sorted(Sort(s)) && multiset(Sort(s)) == multiset(s)
  {
    if s != [] {
      SortSorts(s[1..]);
      InsertSorts(s[0], Sort(s[1..]));
      assert s == [s[0]] + s[1..];
    }
  }

  lemma LeastComesFirst(a: seq<string>, x: string)
    requires Sorted(a) && x in a
    ensures Before(a[0], x)
  {
    var i :| 0 <= i < |a| && a[i] == x;
    if i == 0 {
      BeforeTotal(x, x);
    }
  }

  /** A sorted arrangement is unique. */
  lemma {:induction false} SortedUnique(a: seq<string>, b: seq<string>)
    requires Sorted(a) && Sorted(b) && multiset(a) == multiset(b)
    ensures a == b
  {
    assert |a| == |multiset(a)| == |multiset(b)| == |b|;
    if a != [] {
      assert a[0] == b[0] by {
        assert a[0] in multiset(b) && b[0] in multiset(a);
        LeastComesFirst(a, b[0]);
        LeastComesFirst(b, a[0]);
        BeforeAntisymmetric(a[0], b[0]);
      }
      assert a == [a[0]] + a[1..] && b == [b[0]] + b[1..];
      assert multiset(a[1..]) == multiset(a) - multiset{a[0]} == multiset(b[1..]);
      SortedUnique(a[1..], b[1..]);
    }
  }

  lemma {:induction false} DistinctMultiplicity<T>(s: seq<T>, x: T)
    requires Distinct(s)
    ensures multiset(s)[x] == if x in s then 1 else 0
  {
    if s != [] {
      DistinctMultiplicity(s[1..], x);
      assert s == [s[0]] + s[1..];
    }
  }

  /** Two lists have the same elements exactly when their deduplicated sorts are equal. */
  lemma SortedDedupIsCanonical(a: seq<string>, b: seq<string>)
    ensures Sort(Dedup(a)) == Sort(Dedup(b)) <==> (forall x :: x in a <==> x in b)
  {
    DedupKeepsElements(a);
    DedupKeepsElements(b);
    SortSorts(Dedup(a));
    SortSorts(Dedup(b));
    if forall x :: x in a <==> x in b {
      forall x
        ensures multiset(Dedup(a))[x] == multiset(Dedup(b))[x]
      {
        DistinctMultiplicity(Dedup(a), x);
        DistinctMultiplicity(Dedup(b), x);
      }
      assert multiset(Dedup(a)) == multiset(Dedup(b));
      SortedUnique(Sort(Dedup(a)), Sort(Dedup(b)));
    }
    if Sort(Dedup(a)) == Sort(Dedup(b)) {
      forall x
        ensures x in a <==> x in b
      {
        assert x in Dedup(a) <==> x in multiset(Dedup(a));
        assert x in Dedup(b) <==> x in multiset(Dedup(b));
      }
    }
  }
}
