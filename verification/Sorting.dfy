/** Sorted listings of sets: what collecting a hash table into a vector and
    sorting it yields, whatever order the table iterates in. */
module Sorting {

  ghost predicate SortedBy<T>(s: seq<T>, rank: T -> nat) {
    forall i, j :: 0 <= i < j < |s| ==> rank(s[i]) <= rank(s[j])
  }

  /** `s` holds every element of `elements`, each once. */
  ghost predicate Lists<T>(s: seq<T>, elements: set<T>) {
    multiset(s) == multiset(elements)
  }

  function Insert<T>(x: T, s: seq<T>, rank: T -> nat): seq<T> {
    if s == [] || rank(x) <= rank(s[0]) then [x] + s
    else [s[0]] + Insert(x, s[1..], rank)
  }

  function Sort<T>(s: seq<T>, rank: T -> nat): seq<T> {
    if s == [] then [] else Insert(s[0], Sort(s[1..], rank), rank)
  }

  lemma {:induction false} InsertElements<T>(x: T, s: seq<T>, rank: T -> nat)
    ensures multiset(Insert(x, s, rank)) == multiset(s) + multiset{x}
  {
    if s != [] {
      assert s == [s[0]] + s[1..];
      InsertElements(x, s[1..], rank);
    }
  }

  lemma {:induction false} InsertSorted<T>(x: T, s: seq<T>, rank: T -> nat)
    requires SortedBy(s, rank)
    ensures SortedBy(Insert(x, s, rank), rank)
  {
    if s != [] && rank(s[0]) < rank(x) {
      var rest := Insert(x, s[1..], rank);
      InsertSorted(x, s[1..], rank);
      InsertElements(x, s[1..], rank);
      forall y | y in rest ensures rank(s[0]) <= rank(y) {
        assert y in multiset(rest);
        assert y == x || y in s[1..];
      }
    }
  }

  lemma {:induction false} SortSorts<T>(s: seq<T>, rank: T -> nat)
    ensures multiset(Sort(s, rank)) == multiset(s)
    ensures SortedBy(Sort(s, rank), rank)
  {
    if s != [] {
      assert s == [s[0]] + s[1..];
      SortSorts(s[1..], rank);
      InsertElements(s[0], Sort(s[1..], rank), rank);
      InsertSorted(s[0], Sort(s[1..], rank), rank);
    }
  }

  /** Takes the elements of a set out one by one, in no particular order. */
  method Collect<T>(elements: set<T>) returns (s: seq<T>)
    ensures Lists(s, elements)
  {
    s := [];
    var rest := elements;
    while rest != {}
      invariant rest <= elements
      invariant multiset(s) == multiset(elements - rest)
      decreases rest
    {
      var x :| x in rest;
      assert elements - (rest - {x}) == elements - rest + {x};
      s := s + [x];
      rest := rest - {x};
    }
    assert elements - rest == elements;
  }

  lemma ListsHas<T>(s: seq<T>, elements: set<T>)
    requires Lists(s, elements)
    ensures forall x :: x in s <==> x in elements
  {
    assert forall x :: x in s <==> x in multiset(s);
  }

  lemma {:induction false} ListsOnce<T>(s: seq<T>, elements: set<T>)
    requires Lists(s, elements)
    ensures forall x :: x in s <==> x in elements
    ensures forall i, j :: 0 <= i < j < |s| ==> s[i] != s[j]
  {
    assert forall x :: x in s <==> x in multiset(s);
    forall i, j | 0 <= i < j < |s| ensures s[i] != s[j] {
      assert s == s[..i] + [s[i]] + s[i + 1..j] + [s[j]] + s[j + 1..];
      assert multiset(s)[s[i]] <= 1;
    }
  }
}
