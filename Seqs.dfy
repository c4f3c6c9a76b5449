/** Sequence facts the deck and the deal rely on: filtering a set of values
    out of a sequence, and counting what is left. */
module Seqs {

  function Min(a: int, b: int): int { if a <= b then a else b }

  function Max(a: int, b: int): int { if a <= b then b else a }

  ghost predicate Distinct<T>(s: seq<T>)
  {
    forall i, j :: 0 <= i < j < |s| ==> s[i] != s[j]
  }

  function Elements<T>(s: seq<T>): set<T>
  {
    set x | x in s
  }

  /** s with every occurrence of a value of xs dropped, order kept. */
  function Without<T(==)>(s: seq<T>, xs: set<T>): (r: seq<T>)
    ensures |r| <= |s|
  {
    if s == [] then []
    else Without(s[..|s| - 1], xs) + (if s[|s| - 1] in xs then [] else [s[|s| - 1]])
  }

  /** Without keeps every other value as often as s holds it and no value of xs. */
  lemma {:induction false} WithoutCount<T>(s: seq<T>, xs: set<T>)
    ensures forall x :: multiset(Without(s, xs))[x] == if x in xs then 0 else multiset(s)[x]
  {
    if s != [] {
      var init, last := s[..|s| - 1], s[|s| - 1];
      assert s == init + [last];
      WithoutCount(init, xs);
    }
  }

  /** Filtering commutes with permuting: equal multisets stay equal. */
  lemma WithoutPermutation<T>(a: seq<T>, b: seq<T>, xs: set<T>)
    requires multiset(a) == multiset(b)
    ensures multiset(Without(a, xs)) == multiset(Without(b, xs))
    ensures |Without(a, xs)| == |Without(b, xs)|
  {
    WithoutCount(a, xs);
    WithoutCount(b, xs);
    var ma, mb := multiset(Without(a, xs)), multiset(Without(b, xs));
    assert forall x :: ma[x] == mb[x] by {
      forall x ensures multiset(a)[x] == multiset(b)[x] { }
    }
    MultisetExtensional(ma, mb);
  }

  lemma MultisetExtensional<T>(ma: multiset<T>, mb: multiset<T>)
    requires forall x :: ma[x] == mb[x]
    ensures ma == mb && |ma| == |mb|
  {
  }

  /** In a sequence without repetitions every element occurs once. */
  lemma {:induction false} DistinctOnce<T>(s: seq<T>)
    requires Distinct(s)
    ensures forall x :: x in s ==> multiset(s)[x] == 1
  {
    if s != [] {
      var init, last := s[..|s| - 1], s[|s| - 1];
      assert s == init + [last];
      DistinctOnce(init);
      assert last !in init by {
        assert forall k :: 0 <= k < |init| ==> init[k] == s[k];
      }
    }
  }

  /** Without a repetition-free sequence drops exactly the values of xs it holds. */
  lemma {:induction false} WithoutLength<T>(s: seq<T>, xs: set<T>)
    requires Distinct(s)
    ensures |Without(s, xs)| == |s| - |xs * Elements(s)|
  {
    if s == [] {
      assert xs * Elements(s) == {};
    } else {
      var init, last := s[..|s| - 1], s[|s| - 1];
      assert s == init + [last];
      assert Distinct(init);
      WithoutLength(init, xs);
      assert last !in Elements(init) by {
        assert forall k :: 0 <= k < |init| ==> init[k] == s[k];
      }
      if last in xs {
        assert xs * Elements(s) == xs * Elements(init) + {last};
      } else {
        assert xs * Elements(s) == xs * Elements(init);
      }
    }
  }

  /** A sequence without repetitions has as many elements as it is long. */
  lemma {:induction false} DistinctElements<T>(s: seq<T>)
    requires Distinct(s)
    ensures |Elements(s)| == |s|
  {
    if s != [] {
      var init, last := s[..|s| - 1], s[|s| - 1];
      assert s == init + [last];
      assert Distinct(init);
      DistinctElements(init);
      assert last !in Elements(init) by {
        assert forall k :: 0 <= k < |init| ==> init[k] == s[k];
      }
      assert Elements(s) == Elements(init) + {last};
    }
  }

  /** A non-empty set of ids has a member to pick. */
  lemma Inhabited(s: set<int>)
    requires s != {}
    ensures exists x: int :: x in s
  {
    if forall x: int :: x !in s {
      assert false;
    }
  }
}
