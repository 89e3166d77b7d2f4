/** Counting the different elements of a sequence, as the validators do with a hash set. */
module Distinct {

  function Elements<T>(s: seq<T>): set<T> {
    set x | x in s
  }

  predicate AllDifferent<T(==)>(s: seq<T>) {
    forall i, j | 0 <= i < j < |s| :: s[i] != s[j]
  }

  lemma ElementsOfLast<T>(front: seq<T>, last: T)
    ensures Elements(front + [last]) == Elements(front) + {last}
    ensures AllDifferent(front + [last]) <==> AllDifferent(front) && last !in front
  {
    var s := front + [last];
    assert forall x :: x in s <==> x in front || x == last;
    assert forall i | 0 <= i < |front| :: s[i] == front[i];
    if last in front {
      var i :| 0 <= i < |front| && front[i] == last;
      assert s[i] == s[|front|];
    }
  }

  /** What one more element at the end changes. */
  lemma CountOfLast<T>(s: seq<T>, front: seq<T>, last: T)
    requires s == front + [last]
    ensures Elements(s) == Elements(front) + {last}
    ensures |Elements(s)| == |Elements(front)| + if last in Elements(front) then 0 else 1
    ensures AllDifferent(s) <==> AllDifferent(front) && last !in Elements(front)
  {
    ElementsOfLast(front, last);
    assert last in Elements(front) ==> Elements(front) + {last} == Elements(front);
  }

  lemma AllOfLast<T>(s: seq<T>, p: T -> bool)
    requires s != []
    ensures (forall x | x in s :: p(x)) <==> (forall x | x in s[..|s| - 1] :: p(x)) && p(s[|s| - 1])
  {
  }

  /** A sequence has at most as many different elements as elements, and as many only if all differ. */
  lemma {:induction false} ElementsCount<T>(s: seq<T>)
    ensures |Elements(s)| <= |s|
    ensures AllDifferent(s) <==> |Elements(s)| == |s|
  {
    if s != [] {
      var front, last := s[..|s| - 1], s[|s| - 1];
      assert s == front + [last];
      ElementsCount(front);
      ElementsOfLast(front, last);
      if last in front {
        assert Elements(s) == Elements(front);
      }
    }
  }

  lemma {:induction false} CountOfDifferent<T>(s: seq<T>, x: T)
    requires AllDifferent(s)
    ensures multiset(s)[x] == if x in s then 1 else 0
  {
    if s != [] {
      var front, last := s[..|s| - 1], s[|s| - 1];
      assert s == front + [last];
      ElementsOfLast(front, last);
      CountOfDifferent(front, x);
      assert x in s <==> x in front || x == last;
    }
  }

  /** Sequences without repetition and with the same elements are permutations of one another. */
  lemma SameElementsPermute<T>(s: seq<T>, t: seq<T>)
    requires AllDifferent(s) && AllDifferent(t) && Elements(s) == Elements(t)
    ensures multiset(s) == multiset(t)
  {
    forall x ensures multiset(s)[x] == multiset(t)[x] {
      CountOfDifferent(s, x);
      CountOfDifferent(t, x);
      assert x in s <==> x in Elements(s);
      assert x in t <==> x in Elements(t);
    }
  }
}
