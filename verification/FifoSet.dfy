/** A JavaScript set used as a bounded memory: values keep their insertion order, and the oldest
    are evicted once the set outgrows its cap. */
module FifoSet {
  import opened Prelude

  /** The newest `cap` entries. */
  function Newest<T>(s: seq<T>, cap: nat): seq<T> {
    if |s| > cap then s[|s| - cap..] else s
  }

  /** Adding to a set keeps the place of a value that is already in it. */
  function AddAll<T(==)>(s: seq<T>, more: seq<T>): seq<T> {
    if more == [] then s
    else
      var t, x := AddAll(s, more[..|more| - 1]), more[|more| - 1];
      if x in t then t else t + [x]
  }

  /** The set is the tail of the log of all insertions, and at least a full one once anything was
      evicted. */
  predicate IsTail<T(==)>(s: seq<T>, log: seq<T>, cap: nat) {
    && |s| <= |log|
    && s == log[|log| - |s|..]
    && Distinct(s)
    && (|s| < |log| ==> |s| >= cap)
  }

  /** Between two insertions of one value lie at least `cap` different newer ones. */
  predicate Spaced<T(==)>(log: seq<T>, cap: nat) {
    forall i, j :: 0 <= i < j < |log| && log[i] == log[j] ==>
      exists n {:trigger log[n..j]} :: i < n <= j - cap && |Elements(log[n..j])| >= cap
  }

  lemma {:induction false} AddAllAppends<T>(s: seq<T>, more: seq<T>)
    requires Distinct(more) && forall x :: x in more ==> x !in s
    ensures AddAll(s, more) == s + more
  {
    if more == [] {
      assert s + more == s;
    } else {
      var before, x := more[..|more| - 1], more[|more| - 1];
      AddAllAppends(s, before);
      assert more == before + [x];
      assert x !in before;
      assert s + more == s + before + [x];
    }
  }

  lemma DistinctAppend<T>(s: seq<T>, more: seq<T>)
    requires Distinct(s) && Distinct(more) && forall x :: x in more ==> x !in s
    ensures Distinct(s + more)
  {
    var full := s + more;
    forall i, j | 0 <= i < j < |full| ensures full[i] != full[j] {
      if i < |s| <= j { assert full[j] == more[j - |s|] && full[j] in more; }
    }
  }

  lemma TailAppend<T>(s: seq<T>, log: seq<T>, more: seq<T>)
    requires |s| <= |log| && s == log[|log| - |s|..]
    ensures s + more == (log + more)[|log| - |s|..]
  {
    assert log == log[..|log| - |s|] + s;
    assert log + more == log[..|log| - |s|] + (s + more);
  }

  lemma NewestIsTail<T>(s: seq<T>, log: seq<T>, cap: nat)
    requires IsTail(s, log, cap)
    ensures IsTail(Newest(s, cap), log, cap)
  {
    var newest := Newest(s, cap);
    assert newest == log[|log| - |newest|..];
    assert forall i :: 0 <= i < |newest| ==> newest[i] == s[|s| - |newest| + i];
  }

  /** Inserting new values, with or without evicting the oldest, keeps the set a tail of the log. */
  lemma TailAfterInsert<T>(s: seq<T>, log: seq<T>, more: seq<T>, cap: nat)
    requires IsTail(s, log, cap) && Distinct(more) && forall x :: x in more ==> x !in s
    ensures IsTail(s + more, log + more, cap)
    ensures IsTail(Newest(s + more, cap), log + more, cap)
  {
    DistinctAppend(s, more);
    TailAppend(s, log, more);
    NewestIsTail(s + more, log + more, cap);
  }

  lemma SubsetSize<T>(a: seq<T>, b: seq<T>)
    requires Distinct(a) && Elements(a) <= Elements(b)
    ensures |Elements(b)| >= |a|
  {
    DistinctSize(a);
    assert Elements(b) == Elements(a) + (Elements(b) - Elements(a));
  }

  /** A value that was inserted and is gone has `cap` different newer ones behind it. */
  lemma MissingIsOld<T>(s: seq<T>, log: seq<T>, cap: nat, k: nat)
    requires IsTail(s, log, cap) && k < |log| && log[k] !in s
    ensures |Elements(log[k + 1..])| >= cap
  {
    var gap, window := |log| - |s|, log[k + 1..];
    assert forall n :: gap <= n < |log| ==> log[n] == s[n - gap] && log[n] in s;
    assert k < gap;
    forall x | x in s ensures x in window {
      var n :| 0 <= n < |s| && s[n] == x;
      assert window[gap + n - k - 1] == x;
    }
    SubsetSize(s, window);
  }

  lemma NewInsertIsFar<T>(s: seq<T>, log: seq<T>, more: seq<T>, cap: nat, i: nat, j: nat) returns (n: nat)
    requires IsTail(s, log, cap) && Distinct(more) && forall x :: x in more ==> x !in s
    requires i < j < |log + more| && |log| <= j && (log + more)[i] == (log + more)[j]
    ensures i < n <= j - cap && |Elements((log + more)[n..j])| >= cap
  {
    var all, p := log + more, |log|;
    n := p - |s|;
    assert all[j] == more[j - p] && all[j] in more;
    assert forall k :: p <= k < |all| ==> all[k] == more[k - p];
    assert forall k :: n <= k < p ==> all[k] == s[k - n];
    assert i < n;
    var window := all[n..j];
    forall x | x in s ensures x in window {
      var k :| 0 <= k < |s| && s[k] == x;
      assert window[k] == x;
    }
    SubsetSize(s, window);
  }

  /** Inserting values that are not in the set keeps every reinsertion far apart. */
  lemma InsertsStaySpaced<T>(s: seq<T>, log: seq<T>, more: seq<T>, cap: nat)
    requires IsTail(s, log, cap) && Distinct(more) && forall x :: x in more ==> x !in s
    requires Spaced(log, cap)
    ensures Spaced(log + more, cap)
  {
    var all := log + more;
    forall i, j | 0 <= i < j < |all| && all[i] == all[j]
      ensures exists n {:trigger all[n..j]} :: i < n <= j - cap && |Elements(all[n..j])| >= cap
    {
      if j < |log| {
        var n :| i < n <= j - cap && |Elements(log[n..j])| >= cap;
        assert all[n..j] == log[n..j];
      } else {
        var n := NewInsertIsFar(s, log, more, cap, i, j);
      }
    }
  }
}
