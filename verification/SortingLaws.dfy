/** Stability of the sort. */
module SortingLaws {
  import opened Prelude
  import opened Sorting

  /** The elements of s that tie with x, in their order. */
  function Ties<T>(leq: (T, T) -> bool, s: seq<T>, x: T): seq<T> {
    if s == [] then []
    else
      var earlier, y := Ties(leq, s[..|s| - 1], x), s[|s| - 1];
      if leq(x, y) && leq(y, x) then earlier + [y] else earlier
  }

  lemma TiesPush<T>(leq: (T, T) -> bool, s: seq<T>, y: T, x: T)
    ensures Ties(leq, s + [y], x) == Ties(leq, s, x) + if leq(x, y) && leq(y, x) then [y] else []
  {
    assert (s + [y])[..|s|] == s;
  }

  lemma {:induction false} InsertIsStable<T(!new)>(leq: (T, T) -> bool, s: seq<T>, y: T, x: T)
    requires TotalPreorder(leq) && Sorted(leq, s)
    ensures Ties(leq, Insert(leq, s, y), x) == Ties(leq, s + [y], x)
  {
    TiesPush(leq, s, y, x);
    if s == [] {
      assert s + [y] == [y];
    } else if !leq(s[|s| - 1], y) {
      var before, last := s[..|s| - 1], s[|s| - 1];
      InsertIsStable(leq, before, y, x);
      TiesPush(leq, before, y, x);
      TiesPush(leq, Insert(leq, before, y), last, x);
      TiesPush(leq, before, last, x);
      assert s == before + [last];
    }
  }

  /** Sorting keeps the order of elements that tie. */
  lemma {:induction false} SortIsStable<T(!new)>(leq: (T, T) -> bool, s: seq<T>, x: T)
    requires TotalPreorder(leq)
    ensures Ties(leq, Sort(leq, s), x) == Ties(leq, s, x)
  {
    if s != [] {
      var before, y := s[..|s| - 1], s[|s| - 1];
      SortIsStable(leq, before, x);
      SortCorrect(leq, before);
      InsertIsStable(leq, Sort(leq, before), y, x);
      TiesPush(leq, Sort(leq, before), y, x);
      TiesPush(leq, before, y, x);
      assert s == before + [y];
    }
  }
}
