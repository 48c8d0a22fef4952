/** Which values and reviews the history reports, entry by entry. */
module HistoryLaws {
  import opened Prelude
  import opened Sorting
  import opened Vdxf
  import opened IdentityUpdate
  import opened IdentityHistory

  // ---- extracted values ----

  /** Snapshot i shows what the last one before it that shows anything does. */
  predicate Repeats(ordered: seq<Snapshot>, key: Key, i: nat)
    requires i < |ordered|
  {
    exists j :: 0 <= j < i && ValuesAt(ordered[j], key) == ValuesAt(ordered[i], key)
                && forall m :: j < m < i ==> ValuesAt(ordered[m], key).None?
  }

  /** Snapshot i shows values under the key, and not those already reported. */
  predicate Changes(ordered: seq<Snapshot>, key: Key, i: nat)
    requires i < |ordered|
  {
    ValuesAt(ordered[i], key).Some? && !Repeats(ordered, key, i)
  }

  /** How many values the first n snapshots report. */
  function ReportedBy(ordered: seq<Snapshot>, key: Key, n: nat): nat
    requires n <= |ordered|
  {
    if n == 0 then 0
    else ReportedBy(ordered, key, n - 1) + if Changes(ordered, key, n - 1) then |ValuesAt(ordered[n - 1], key).value| else 0
  }

  /** Each value of a changing snapshot is reported at that snapshot's height and in its place. */
  predicate InPlace(ordered: seq<Snapshot>, key: Key, out: seq<Entry>, i: nat)
    requires i < |ordered|
  {
    Changes(ordered, key, i) ==>
      var values, from := ValuesAt(ordered[i], key).value, ReportedBy(ordered, key, i);
      from + |values| <= |out| && forall k :: 0 <= k < |values| ==> out[from + k] == Entry(ordered[i].height, values[k])
  }

  /** last is what the last snapshot among the first n that shows anything shows. */
  predicate LastShown(ordered: seq<Snapshot>, key: Key, n: nat, last: Option<seq<Json>>)
    requires n <= |ordered|
  {
    if last.None? then forall m :: 0 <= m < n ==> ValuesAt(ordered[m], key).None?
    else exists j :: 0 <= j < n && ValuesAt(ordered[j], key) == last && forall m :: j < m < n ==> ValuesAt(ordered[m], key).None?
  }

  lemma LastShownRepeats(ordered: seq<Snapshot>, key: Key, n: nat, last: Option<seq<Json>>)
    requires n < |ordered| && LastShown(ordered, key, n, last) && ValuesAt(ordered[n], key).Some?
    ensures Repeats(ordered, key, n) <==> ValuesAt(ordered[n], key) == last
  {
    if Repeats(ordered, key, n) && last.Some? {
      var j :| 0 <= j < n && ValuesAt(ordered[j], key) == last && forall m :: j < m < n ==> ValuesAt(ordered[m], key).None?;
      var i :| 0 <= i < n && ValuesAt(ordered[i], key) == ValuesAt(ordered[n], key)
        && forall m :: i < m < n ==> ValuesAt(ordered[m], key).None?;
      assert i == j;
    }
  }

  ghost predicate WalkedTo(ordered: seq<Snapshot>, key: Key, n: nat, w: Walk)
    requires n <= |ordered|
  {
    && |w.out| == ReportedBy(ordered, key, n) && LastShown(ordered, key, n, w.last)
    && forall i :: 0 <= i < n ==> InPlace(ordered, key, w.out, i)
  }

  lemma LastShownStep(ordered: seq<Snapshot>, key: Key, n: nat, last: Option<seq<Json>>)
    requires n < |ordered| && LastShown(ordered, key, n, last)
    ensures LastShown(ordered, key, n + 1, if ValuesAt(ordered[n], key).Some? then ValuesAt(ordered[n], key) else last)
  {
    if ValuesAt(ordered[n], key).None? && last.Some? {
      var j :| 0 <= j < n && ValuesAt(ordered[j], key) == last && forall m :: j < m < n ==> ValuesAt(ordered[m], key).None?;
      assert forall m :: j < m < n + 1 ==> ValuesAt(ordered[m], key).None?;
    }
  }

  lemma InPlaceStays(ordered: seq<Snapshot>, key: Key, out: seq<Entry>, more: seq<Entry>, n: nat)
    requires n <= |ordered| && forall i :: 0 <= i < n ==> InPlace(ordered, key, out, i)
    ensures forall i :: 0 <= i < n ==> InPlace(ordered, key, out + more, i)
  {
    forall i | 0 <= i < n ensures InPlace(ordered, key, out + more, i) { assert InPlace(ordered, key, out, i); }
  }

  lemma WalkUnfolds(ordered: seq<Snapshot>, key: Key, n: nat)
    requires n < |ordered|
    ensures var w, values := WalkSnapshots(ordered[..n], key), ValuesAt(ordered[n], key);
      WalkSnapshots(ordered[..n + 1], key) ==
        if values.None? || values == w.last then w else Walk(w.out + EntriesOf(ordered[n].height, values.value), values)
  {
    assert ordered[..n + 1][..n] == ordered[..n];
  }

  lemma WalkStep(ordered: seq<Snapshot>, key: Key, n: nat, w: Walk, v: Walk)
    requires n < |ordered| && WalkedTo(ordered, key, n, w)
    requires var values := ValuesAt(ordered[n], key);
      v == if values.None? || values == w.last then w else Walk(w.out + EntriesOf(ordered[n].height, values.value), values)
    ensures WalkedTo(ordered, key, n + 1, v)
  {
    var values := ValuesAt(ordered[n], key);
    LastShownStep(ordered, key, n, w.last);
    if values.Some? {
      LastShownRepeats(ordered, key, n, w.last);
      InPlaceStays(ordered, key, w.out, EntriesOf(ordered[n].height, values.value), n);
    }
  }

  /** The history of a key is, snapshot by snapshot in ascending order of height, the values of those
      that show other values than the last before them, and nothing else. */
  lemma ValuesExactly(snapshots: seq<Snapshot>, key: Key)
    ensures var ordered := Sort(InOrder, snapshots);
      var out := WalkSnapshots(ordered, key).out;
      |out| == ReportedBy(ordered, key, |ordered|) && forall i :: 0 <= i < |ordered| ==> InPlace(ordered, key, out, i)
  {
    var ordered := Sort(InOrder, snapshots);
    for n := 0 to |ordered|
      invariant WalkedTo(ordered, key, n, WalkSnapshots(ordered[..n], key))
    {
      WalkUnfolds(ordered, key, n);
      WalkStep(ordered, key, n, WalkSnapshots(ordered[..n], key), WalkSnapshots(ordered[..n + 1], key));
    }
    assert ordered[..|ordered|] == ordered;
  }

  // ---- decoded rows ----

  /** Entry i decodes, and names no job or one that no entry before it names. */
  predicate MakesRow(tc: TextCodec, entries: seq<Entry>, i: nat)
    requires i < |entries|
  {
    && DecodeReviewValue(tc, entries[i].value).Some?
    && (match ReviewJobHash(tc, entries[i].value)
        case None => true
        case Some(h) => h == "" || forall j :: 0 <= j < i ==> ReviewJobHash(tc, entries[j].value) != Some(h))
  }

  function RowsBy(tc: TextCodec, entries: seq<Entry>, n: nat): nat
    requires n <= |entries|
  {
    if n == 0 then 0 else RowsBy(tc, entries, n - 1) + if MakesRow(tc, entries, n - 1) then 1 else 0
  }

  predicate RowInPlace(tc: TextCodec, entries: seq<Entry>, out: seq<Review>, i: nat)
    requires i < |entries|
  {
    MakesRow(tc, entries, i) ==>
      var k := RowsBy(tc, entries, i);
      k < |out| && out[k] == Review(entries[i].height, ReviewJobHash(tc, entries[i].value), DecodeReviewValue(tc, entries[i].value).value)
  }

  ghost predicate DecodedTo(tc: TextCodec, entries: seq<Entry>, n: nat, rows: Rows)
    requires n <= |entries|
  {
    && |rows.out| == RowsBy(tc, entries, n)
    && (forall h :: h in rows.seen <==> h != "" && exists j :: 0 <= j < n && ReviewJobHash(tc, entries[j].value) == Some(h))
    && forall i :: 0 <= i < n ==> RowInPlace(tc, entries, rows.out, i)
  }

  lemma DecodeStep(tc: TextCodec, entries: seq<Entry>, n: nat)
    requires n < |entries| && DecodedTo(tc, entries, n, DecodeEntries(tc, entries[..n]))
    ensures DecodedTo(tc, entries, n + 1, DecodeEntries(tc, entries[..n + 1]))
  {
    assert entries[..n + 1][..n] == entries[..n];
    var rows, more := DecodeEntries(tc, entries[..n]), DecodeEntries(tc, entries[..n + 1]);
    forall i | 0 <= i < n ensures RowInPlace(tc, entries, more.out, i) { assert RowInPlace(tc, entries, rows.out, i); }
  }

  /** There is one row, in order, for each entry that decodes, unless its job was named before by an
      entry, and an empty hash names none; it has the entry's height, hash and record. */
  lemma RowsExactly(tc: TextCodec, entries: seq<Entry>)
    ensures var out := DecodeEntries(tc, entries).out;
      |out| == RowsBy(tc, entries, |entries|) && forall i :: 0 <= i < |entries| ==> RowInPlace(tc, entries, out, i)
  {
    for n := 0 to |entries|
      invariant DecodedTo(tc, entries, n, DecodeEntries(tc, entries[..n]))
    {
      DecodeStep(tc, entries, n);
    }
    assert entries[..|entries|] == entries;
  }

  // ---- single values ----

  /** A snapshot shows nothing under a key without a map, without the key or with null there, and
      otherwise the array, or the single value as one. */
  lemma ValuesAtExactly(height: Option<int>, content: ContentMap, key: Key)
    ensures ValuesAt(Snapshot(height, None), key) == None
    ensures ValuesAt(Snapshot(height, Some(content)), key) ==
      if key !in content then None
      else match content[key]
           case Null => None
           case Arr(elems) => Some(elems)
           case v => Some([v])
  {
  }
}
