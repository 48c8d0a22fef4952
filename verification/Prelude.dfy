/** Datatypes and collection facts every component uses. */
module Prelude {

  datatype Option<+T> = None | Some(value: T)
  {
    function GetOr(default: T): T { if Some? then value else default }
  }

  datatype Result<+T, +E> = Ok(value: T) | Err(error: E)

  function Sum(s: seq<int>): int {
    if s == [] then 0 else Sum(s[..|s| - 1]) + s[|s| - 1]
  }

  function Map<T, U>(f: T -> U, s: seq<T>): (r: seq<U>)
    ensures |r| == |s| && forall i :: 0 <= i < |s| ==> r[i] == f(s[i])
  {
    seq(|s|, i requires 0 <= i < |s| => f(s[i]))
  }

  predicate Distinct<T(==)>(s: seq<T>) {
    forall i, j :: 0 <= i < j < |s| ==> s[i] != s[j]
  }

  function Elements<T>(s: seq<T>): set<T> { set x | x in s }

  /** A duplicate-free sequence has as many elements as its set. */
  lemma {:induction false} DistinctSize<T>(s: seq<T>)
    requires Distinct(s)
    ensures |Elements(s)| == |s|
  {
    if s != [] {
      var n := |s| - 1;
      DistinctSize(s[..n]);
      assert Elements(s) == Elements(s[..n]) + {s[n]};
      assert s[n] !in Elements(s[..n]);
    }
  }

  lemma TwiceInMultiset<T>(s: seq<T>, i: nat, j: nat)
    requires i < j < |s| && s[i] == s[j]
    ensures multiset(s)[s[i]] >= 2
  {
    assert s == s[..j] + [s[j]] + s[j + 1..];
    assert s[j] in s[..j];
  }

  lemma {:induction false} DistinctMultiplicity<T>(s: seq<T>, x: T)
    requires Distinct(s)
    ensures multiset(s)[x] <= 1
  {
    if s != [] {
      var n := |s| - 1;
      DistinctMultiplicity(s[..n], x);
      assert s == s[..n] + [s[n]];
      if x == s[n] { assert x !in s[..n]; }
    }
  }

  /** Total of a map's values. */
  ghost function Total<K>(m: map<K, nat>): nat
    decreases |m|
  {
    if m.Keys == {} then 0
    else
      var k :| k in m.Keys;
      assert |m - {k}| < |m| by { assert (m - {k}).Keys == m.Keys - {k}; }
      m[k] + Total(m - {k})
  }

  lemma {:induction false} TotalRemove<K>(m: map<K, nat>, k: K)
    requires k in m
    ensures Total(m) == m[k] + Total(m - {k})
    decreases |m|
  {
    var c :| c in m.Keys && Total(m) == m[c] + Total(m - {c});
    if c != k {
      assert (m - {c}).Keys == m.Keys - {c} && (m - {k}).Keys == m.Keys - {k};
      TotalRemove(m - {c}, k);
      TotalRemove(m - {k}, c);
      assert m - {c} - {k} == m - {k} - {c};
    }
  }

  lemma RemoveKey<K, V>(n: map<K, V>, k: K)
    requires k in n
    ensures (n - {k}).Keys == n.Keys - {k} && |n - {k}| < |n|
  {
    assert n.Keys == (n - {k}).Keys + {k};
  }

  lemma UnionRemove<K, V>(m: map<K, V>, n: map<K, V>, k: K)
    requires k !in m && k in n
    ensures (m + n) - {k} == m + (n - {k})
  {
    var a, b := (m + n) - {k}, m + (n - {k});
    assert a.Keys == b.Keys;
    assert forall x :: x in a ==> a[x] == b[x];
  }

  lemma {:induction false} TotalDisjointUnion<K>(m: map<K, nat>, n: map<K, nat>)
    requires m.Keys !! n.Keys
    ensures Total(m + n) == Total(m) + Total(n)
    decreases n.Keys
  {
    if n.Keys == {} {
      assert m + n == m by { assert (m + n).Keys == m.Keys; }
    } else {
      var k :| k in n.Keys;
      var rest, union := n - {k}, m + n;
      RemoveKey(n, k);
      UnionRemove(m, n, k);
      TotalDisjointUnion(m, rest);
      TotalRemove(n, k);
      TotalRemove(union, k);
    }
  }
}

/** Array.prototype.sort: a stable sort by a comparator. */
module Sorting {
  import opened Prelude

  ghost predicate TotalPreorder<T(!new)>(leq: (T, T) -> bool) {
    && (forall x, y :: leq(x, y) || leq(y, x))
    && (forall x, y, z :: leq(x, y) && leq(y, z) ==> leq(x, z))
  }

  ghost predicate Sorted<T(!new)>(leq: (T, T) -> bool, s: seq<T>) {
    forall i, j :: 0 <= i < j < |s| ==> leq(s[i], s[j])
  }

  /** Inserts x after every element that does not follow it. */
  function Insert<T>(leq: (T, T) -> bool, s: seq<T>, x: T): seq<T> {
    if s == [] then [x]
    else if leq(s[|s| - 1], x) then s + [x]
    else Insert(leq, s[..|s| - 1], x) + [s[|s| - 1]]
  }

  function Sort<T>(leq: (T, T) -> bool, s: seq<T>): seq<T> {
    if s == [] then [] else Insert(leq, Sort(leq, s[..|s| - 1]), s[|s| - 1])
  }

  lemma {:induction false} InsertCorrect<T(!new)>(leq: (T, T) -> bool, s: seq<T>, x: T)
    requires TotalPreorder(leq) && Sorted(leq, s)
    ensures Sorted(leq, Insert(leq, s, x))
    ensures multiset(Insert(leq, s, x)) == multiset(s) + multiset{x}
  {
    if s == [] {
    } else if leq(s[|s| - 1], x) {
      assert forall i :: 0 <= i < |s| ==> leq(s[i], s[|s| - 1]) || i == |s| - 1;
    } else {
      var n := |s| - 1;
      InsertCorrect(leq, s[..n], x);
      var t := Insert(leq, s[..n], x);
      assert s == s[..n] + [s[n]];
      forall i | 0 <= i < |t| ensures leq(t[i], s[n]) {
        assert t[i] in multiset(t);
      }
    }
  }

  /** Sorting orders the elements and loses or invents none. */
  lemma {:induction false} SortCorrect<T(!new)>(leq: (T, T) -> bool, s: seq<T>)
    requires TotalPreorder(leq)
    ensures Sorted(leq, Sort(leq, s)) && multiset(Sort(leq, s)) == multiset(s)
  {
    if s != [] {
      var before, x := s[..|s| - 1], s[|s| - 1];
      SortCorrect(leq, before);
      InsertCorrect(leq, Sort(leq, before), x);
      MultisetPush(s);
    }
  }

  lemma MultisetPush<T>(s: seq<T>)
    requires s != []
    ensures multiset(s) == multiset(s[..|s| - 1]) + multiset{s[|s| - 1]}
  {
    assert s == s[..|s| - 1] + [s[|s| - 1]];
  }

  lemma SortedLast<T(!new)>(leq: (T, T) -> bool, s: seq<T>, x: T)
    requires TotalPreorder(leq) && Sorted(leq, s) && x in multiset(s)
    ensures s != [] && leq(x, s[|s| - 1])
  {
    var i :| 0 <= i < |s| && s[i] == x;
    assert leq(x, x);
    if i < |s| - 1 { assert leq(s[i], s[|s| - 1]); }
  }

  /** No two different elements tie. */
  ghost predicate Untied<T(!new)>(leq: (T, T) -> bool, s: seq<T>) {
    forall x, y :: x in s && y in s && leq(x, y) && leq(y, x) ==> x == y
  }

  lemma SameLast<T(!new)>(leq: (T, T) -> bool, a: seq<T>, b: seq<T>)
    requires TotalPreorder(leq) && Sorted(leq, a) && Sorted(leq, b) && Untied(leq, a)
    requires multiset(a) == multiset(b) && a != []
    ensures b != [] && a[|a| - 1] == b[|b| - 1]
  {
    var x := a[|a| - 1];
    assert x in multiset(a);
    SortedLast(leq, b, x);
    var y := b[|b| - 1];
    assert y in multiset(b);
    SortedLast(leq, a, y);
    assert y in a;
  }

  lemma FrontsMatch<T(!new)>(leq: (T, T) -> bool, a: seq<T>, b: seq<T>, x: T)
    requires Sorted(leq, a + [x]) && Sorted(leq, b + [x]) && Untied(leq, a + [x])
    requires multiset(a + [x]) == multiset(b + [x])
    ensures Sorted(leq, a) && Sorted(leq, b) && Untied(leq, a) && multiset(a) == multiset(b)
  {
    assert a == (a + [x])[..|a|] && b == (b + [x])[..|b|];
    assert forall y :: y in a ==> y in a + [x];
    assert multiset(a) == multiset(a + [x]) - multiset{x};
    assert multiset(b) == multiset(b + [x]) - multiset{x};
  }

  /** When no two different elements tie, a multiset has one sorted order. */
  lemma {:induction false} SortedUnique<T(!new)>(leq: (T, T) -> bool, a: seq<T>, b: seq<T>)
    requires TotalPreorder(leq) && Sorted(leq, a) && Sorted(leq, b) && Untied(leq, a)
    requires multiset(a) == multiset(b)
    ensures a == b
  {
    if a == [] {
      assert |multiset(b)| == 0;
    } else {
      SameLast(leq, a, b);
      var x, frontA, frontB := a[|a| - 1], a[..|a| - 1], b[..|b| - 1];
      assert a == frontA + [x] && b == frontB + [x];
      FrontsMatch(leq, frontA, frontB, x);
      SortedUnique(leq, frontA, frontB);
    }
  }

  lemma SameMembers<T(!new)>(leq: (T, T) -> bool, s: seq<T>)
    requires TotalPreorder(leq)
    ensures |Sort(leq, s)| == |s| && forall x :: x in Sort(leq, s) <==> x in s
  {
    SortCorrect(leq, s);
    assert |multiset(s)| == |s| && |multiset(Sort(leq, s))| == |Sort(leq, s)|;
    forall x ensures x in Sort(leq, s) <==> x in s {
      assert x in s <==> x in multiset(s);
      assert x in Sort(leq, s) <==> x in multiset(Sort(leq, s));
    }
  }
}

/** String operations. */
module Texts {
  /** The characters a regular expression's \s stands for, which are also those trim removes. */
  predicate IsSpace(c: char) {
    var cp := c as int;
    || 9 <= cp <= 13 || cp == 0x20 || cp == 0xA0 || cp == 0x1680 || 0x2000 <= cp <= 0x200A
    || cp == 0x2028 || cp == 0x2029 || cp == 0x202F || cp == 0x205F || cp == 0x3000 || cp == 0xFEFF
  }

  /** How many white-space characters a text starts with. */
  function Spaces(t: string): (n: nat)
    ensures n <= |t|
  {
    if t != [] && IsSpace(t[0]) then 1 + Spaces(t[1..]) else 0
  }

  function TrimStart(t: string): string { t[Spaces(t)..] }

  function TrimEnd(t: string): string {
    if t != [] && IsSpace(t[|t| - 1]) then TrimEnd(t[..|t| - 1]) else t
  }

  function JoinWith(pieces: seq<string>, sep: string): string {
    if pieces == [] then []
    else if |pieces| == 1 then pieces[0]
    else pieces[0] + sep + JoinWith(pieces[1..], sep)
  }

  function Decimal(n: nat): string {
    if n < 10 then [('0' as int + n) as char] else Decimal(n / 10) + [('0' as int + n % 10) as char]
  }

  lemma {:induction false} DecimalIsDigits(n: nat)
    ensures Decimal(n) != [] && forall i :: 0 <= i < |Decimal(n)| ==> '0' <= Decimal(n)[i] <= '9'
  {
    if n >= 10 { DecimalIsDigits(n / 10); }
  }
}
