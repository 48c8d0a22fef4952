/** Rebuilding an agent's review history from identity snapshots. */
module IdentityHistory {
  import opened Prelude
  import opened Sorting
  import opened Vdxf
  import opened IdentityUpdate

  /** One identity state as getidentityhistory returns it. */
  datatype Snapshot = Snapshot(height: Option<int>, contentmultimap: Option<ContentMap>)

  datatype Entry = Entry(height: Option<int>, value: Json)

  datatype Review = Review(height: Option<int>, jobHash: Option<string>, raw: Json)

  /** Ascending heights; snapshots without one come last. */
  predicate NoLaterThan(a: Option<int>, b: Option<int>) {
    b.None? || (a.Some? && a.value <= b.value)
  }

  predicate InOrder(a: Snapshot, b: Snapshot) { NoLaterThan(a.height, b.height) }

  /** The values one snapshot holds under a key; None when it holds none. */
  function ValuesAt(s: Snapshot, key: Key): Option<seq<Json>> {
    if s.contentmultimap.None? || key !in s.contentmultimap.value || s.contentmultimap.value[key] == Null then None
    else Some(AsArray(s.contentmultimap.value[key]))
  }

  // ---- extractVdxfHistory ----

  datatype Walk = Walk(out: seq<Entry>, last: Option<seq<Json>>)

  function EntriesOf(height: Option<int>, values: seq<Json>): seq<Entry> {
    Map((v: Json) => Entry(height, v), values)
  }

  function WalkSnapshots(ordered: seq<Snapshot>, key: Key): Walk {
    if ordered == [] then Walk([], None)
    else
      var w := WalkSnapshots(ordered[..|ordered| - 1], key);
      var s := ordered[|ordered| - 1];
      var values := ValuesAt(s, key);
      if values.None? || values == w.last then w
      else Walk(w.out + EntriesOf(s.height, values.value), values)
  }

  method ExtractVdxfHistory(snapshots: seq<Snapshot>, key: Key) returns (out: seq<Entry>)
    ensures out == WalkSnapshots(Sort(InOrder, snapshots), key).out
  {
    out := [];
    if snapshots == [] { return; }
    var ordered := Sort(InOrder, snapshots);
    var last: Option<seq<Json>> := None;
    for i := 0 to |ordered|
      invariant Walk(out, last) == WalkSnapshots(ordered[..i], key)
    {
      assert ordered[..i + 1][..i] == ordered[..i];
      var values := ValuesAt(ordered[i], key);
      if values.None? || values == last { continue; }
      last := values;
      out := out + EntriesOf(ordered[i].height, values.value);
    }
    assert ordered[..|ordered|] == ordered;
  }

  // ---- decodeReviewHistory ----

  /** Rows so far and the jobHashes already reported. */
  datatype Rows = Rows(out: seq<Review>, seen: set<string>)

  function DecodeEntry(tc: TextCodec, rows: Rows, e: Entry): Rows {
    match DecodeReviewValue(tc, e.value)
    case None => rows
    case Some(rec) =>
      var jobHash := JobHashField(rec);
      if jobHash.Some? && jobHash.value != "" then
        if jobHash.value in rows.seen then rows
        else Rows(rows.out + [Review(e.height, jobHash, rec)], rows.seen + {jobHash.value})
      else Rows(rows.out + [Review(e.height, jobHash, rec)], rows.seen)
  }

  function DecodeEntries(tc: TextCodec, entries: seq<Entry>): Rows {
    if entries == [] then Rows([], {})
    else DecodeEntry(tc, DecodeEntries(tc, entries[..|entries| - 1]), entries[|entries| - 1])
  }

  function ReviewHistory(tc: TextCodec, snapshots: seq<Snapshot>): seq<Review> {
    DecodeEntries(tc, WalkSnapshots(Sort(InOrder, snapshots), ReviewRecord).out).out
  }

  method DecodeReviewHistory(tc: TextCodec, snapshots: seq<Snapshot>) returns (out: seq<Review>)
    ensures out == ReviewHistory(tc, snapshots)
  {
    var entries := ExtractVdxfHistory(snapshots, ReviewRecord);
    var seen: set<string> := {};
    out := [];
    for i := 0 to |entries|
      invariant Rows(out, seen) == DecodeEntries(tc, entries[..i])
    {
      assert entries[..i + 1][..i] == entries[..i];
      var decoded := DecodeReviewValue(tc, entries[i].value);
      if decoded.None? { continue; }
      var jobHash := JobHashField(decoded.value);
      if jobHash.Some? && jobHash.value != "" {
        if jobHash.value in seen { continue; }
        seen := seen + {jobHash.value};
      }
      out := out + [Review(entries[i].height, jobHash, decoded.value)];
    }
    assert entries[..|entries|] == entries;
  }

  // ---- what the rows say ----

  /** The rows that report job h. */
  function RowsFor(out: seq<Review>, h: string): seq<Review> {
    if out == [] then []
    else
      var r := out[|out| - 1];
      RowsFor(out[..|out| - 1], h) + if r.jobHash == Some(h) then [r] else []
  }

  function FirstMention(tc: TextCodec, entries: seq<Entry>, h: string): Option<Entry> {
    if entries == [] then None
    else
      var earlier := FirstMention(tc, entries[..|entries| - 1], h);
      if earlier.Some? || ReviewJobHash(tc, entries[|entries| - 1].value) != Some(h) then earlier
      else Some(entries[|entries| - 1])
  }

  /** Snapshot s shows a review of job h. */
  predicate Shows(tc: TextCodec, s: Snapshot, h: string) {
    ValuesAt(s, ReviewRecord).Some? &&
    exists v :: v in ValuesAt(s, ReviewRecord).value && ReviewJobHash(tc, v) == Some(h)
  }

  function FirstShowing(tc: TextCodec, ordered: seq<Snapshot>, h: string): Option<Snapshot> {
    if ordered == [] then None
    else
      var earlier := FirstShowing(tc, ordered[..|ordered| - 1], h);
      if earlier.Some? || !Shows(tc, ordered[|ordered| - 1], h) then earlier
      else Some(ordered[|ordered| - 1])
  }

  /** A job with a non-empty hash is reported exactly once, from its first mention. */
  lemma {:induction false} ReportedOnceFromFirstMention(tc: TextCodec, entries: seq<Entry>, h: string)
    requires h != ""
    ensures var rows := DecodeEntries(tc, entries);
      var first := FirstMention(tc, entries, h);
      && (h in rows.seen <==> first.Some?)
      && RowsFor(rows.out, h) == (match first
           case None => []
           case Some(e) => [Review(e.height, Some(h), DecodeReviewValue(tc, e.value).GetOr(Null))])
  {
    if entries != [] {
      var before, e := entries[..|entries| - 1], entries[|entries| - 1];
      ReportedOnceFromFirstMention(tc, before, h);
      var rows, next := DecodeEntries(tc, before), DecodeEntries(tc, entries);
      if next.out != rows.out {
        assert next.out[..|next.out| - 1] == rows.out;
      }
    }
  }

  lemma {:induction false} FirstMentionAppend(tc: TextCodec, a: seq<Entry>, b: seq<Entry>, h: string)
    ensures FirstMention(tc, a + b, h) ==
      if FirstMention(tc, a, h).Some? then FirstMention(tc, a, h) else FirstMention(tc, b, h)
  {
    if b == [] {
      assert a + b == a;
    } else {
      assert (a + b)[..|a + b| - 1] == a + b[..|b| - 1];
      FirstMentionAppend(tc, a, b[..|b| - 1], h);
    }
  }

  lemma {:induction false} MentionsOfSnapshot(tc: TextCodec, height: Option<int>, values: seq<Json>, h: string)
    ensures var first := FirstMention(tc, EntriesOf(height, values), h);
      && (first.Some? <==> exists v :: v in values && ReviewJobHash(tc, v) == Some(h))
      && (first.Some? ==> first.value.height == height && ReviewJobHash(tc, first.value.value) == Some(h))
  {
    if values != [] {
      var n := |values| - 1;
      MentionsOfSnapshot(tc, height, values[..n], h);
      assert EntriesOf(height, values)[..n] == EntriesOf(height, values[..n]);
      assert values == values[..n] + [values[n]];
    }
  }

  /** Collapsing unchanged snapshots loses no first mention. */
  lemma {:induction false} WalkKeepsFirstMention(tc: TextCodec, ordered: seq<Snapshot>, h: string)
    ensures var w := WalkSnapshots(ordered, ReviewRecord);
      var first, shown := FirstMention(tc, w.out, h), FirstShowing(tc, ordered, h);
      && (first.Some? <==> shown.Some?)
      && (first.Some? ==> first.value.height == shown.value.height && ReviewJobHash(tc, first.value.value) == Some(h))
      && (w.last.Some? && (exists v :: v in w.last.value && ReviewJobHash(tc, v) == Some(h)) ==> shown.Some?)
  {
    if ordered != [] {
      var before, s := ordered[..|ordered| - 1], ordered[|ordered| - 1];
      WalkKeepsFirstMention(tc, before, h);
      var w := WalkSnapshots(before, ReviewRecord);
      var values := ValuesAt(s, ReviewRecord);
      if values.Some? && values != w.last {
        MentionsOfSnapshot(tc, s.height, values.value, h);
        FirstMentionAppend(tc, w.out, EntriesOf(s.height, values.value), h);
      }
    }
  }

  /** For any snapshots in any order: a non-empty jobHash is reported once if some snapshot shows
      it, not at all otherwise, and at the height of the first snapshot that shows it. */
  lemma HistoryReportsEachJobOnce(tc: TextCodec, snapshots: seq<Snapshot>, h: string)
    requires h != ""
    ensures var rows := RowsFor(ReviewHistory(tc, snapshots), h);
      match FirstShowing(tc, Sort(InOrder, snapshots), h)
      case None => rows == []
      case Some(s) => |rows| == 1 && rows[0].height == s.height && rows[0].jobHash == Some(h)
                      && JobHashField(rows[0].raw) == Some(h)
  {
    var w := WalkSnapshots(Sort(InOrder, snapshots), ReviewRecord);
    ReportedOnceFromFirstMention(tc, w.out, h);
    WalkKeepsFirstMention(tc, Sort(InOrder, snapshots), h);
  }

  // ---- order of the rows ----

  ghost predicate Ascending(heights: seq<Option<int>>) {
    forall i, j :: 0 <= i < j < |heights| ==> NoLaterThan(heights[i], heights[j])
  }

  function RowHeights(out: seq<Review>): seq<Option<int>> { Map((r: Review) => r.height, out) }
  function EntryHeights(out: seq<Entry>): seq<Option<int>> { Map((e: Entry) => e.height, out) }

  lemma {:induction false} WalkAscends(ordered: seq<Snapshot>, key: Key)
    requires Sorted(InOrder, ordered)
    ensures Ascending(EntryHeights(WalkSnapshots(ordered, key).out))
    ensures forall e, s :: e in WalkSnapshots(ordered, key).out && s in ordered && s == ordered[|ordered| - 1] ==>
      NoLaterThan(e.height, s.height)
  {
    if ordered != [] {
      var n := |ordered| - 1;
      WalkAscends(ordered[..n], key);
      var w := WalkSnapshots(ordered[..n], key);
      forall e | e in w.out ensures NoLaterThan(e.height, ordered[n].height) {
        if n > 0 {
          assert InOrder(ordered[n - 1], ordered[n]) && ordered[..n][n - 1] in ordered[..n];
        }
      }
      var w' := WalkSnapshots(ordered, key);
      assert forall e :: e in w'.out ==> e in w.out || e.height == ordered[n].height;
    }
  }

  lemma {:induction false} RowsAscend(tc: TextCodec, entries: seq<Entry>)
    requires Ascending(EntryHeights(entries))
    ensures Ascending(RowHeights(DecodeEntries(tc, entries).out))
    ensures forall r :: r in DecodeEntries(tc, entries).out ==> exists e :: e in entries && e.height == r.height
  {
    if entries != [] {
      var n := |entries| - 1;
      assert EntryHeights(entries[..n]) == EntryHeights(entries)[..n];
      RowsAscend(tc, entries[..n]);
      var rows, next := DecodeEntries(tc, entries[..n]).out, DecodeEntries(tc, entries).out;
      forall r | r in rows ensures NoLaterThan(r.height, entries[n].height) {
        var e :| e in entries[..n] && e.height == r.height;
        var i :| 0 <= i < n && entries[i] == e;
        assert NoLaterThan(EntryHeights(entries)[i], EntryHeights(entries)[n]);
      }
      if next != rows {
        assert next == rows + [next[|rows|]] && next[|rows|].height == entries[n].height;
      }
      forall r | r in next ensures exists e :: e in entries && e.height == r.height {
        if r in rows {
          var e :| e in entries[..n] && e.height == r.height;
        } else {
          assert entries[n] in entries;
        }
      }
    }
  }

  /** Whatever order the snapshots arrive in, rows come out oldest first. */
  lemma HistoryAscends(tc: TextCodec, snapshots: seq<Snapshot>)
    ensures Ascending(RowHeights(ReviewHistory(tc, snapshots)))
  {
    SortCorrect(InOrder, snapshots);
    var ordered := Sort(InOrder, snapshots);
    WalkAscends(ordered, ReviewRecord);
    RowsAscend(tc, WalkSnapshots(ordered, ReviewRecord).out);
  }

  ghost predicate DistinctHeights(snapshots: seq<Snapshot>) {
    && (forall s :: s in snapshots ==> s.height.Some?)
    && (forall s, t :: s in snapshots && t in snapshots && s.height == t.height ==> s == t)
  }

  /** With a distinct height each, the arrival order of the snapshots is irrelevant. */
  lemma ArrivalOrderIsIrrelevant(tc: TextCodec, a: seq<Snapshot>, b: seq<Snapshot>)
    requires multiset(a) == multiset(b) && DistinctHeights(a)
    ensures Sort(InOrder, a) == Sort(InOrder, b)
    ensures ReviewHistory(tc, a) == ReviewHistory(tc, b)
  {
    SortCorrect(InOrder, a);
    SortCorrect(InOrder, b);
    SameMembers(InOrder, a);
    SortedUnique(InOrder, Sort(InOrder, a), Sort(InOrder, b));
  }

  // ---- a run of identity updates ----

  datatype Update = Update(height: int, additions: Additions)

  predicate HeightsIncrease(updates: seq<Update>) {
    forall i, j :: 0 <= i < j < |updates| ==> updates[i].height < updates[j].height
  }

  /** The content map after a run of updates. */
  function ContentAfter(initial: ContentMap, updates: seq<Update>): ContentMap {
    if updates == [] then initial
    else Apply(ContentAfter(initial, updates[..|updates| - 1]), updates[|updates| - 1].additions)
  }

  /** The snapshots the chain keeps: one per update. */
  function SnapshotsOf(initial: ContentMap, updates: seq<Update>): seq<Snapshot> {
    if updates == [] then []
    else SnapshotsOf(initial, updates[..|updates| - 1])
         + [Snapshot(Some(updates[|updates| - 1].height), Some(ContentAfter(initial, updates)))]
  }

  /** Update u writes a review of job h. */
  predicate Writes(tc: TextCodec, u: Update, h: string) {
    ReviewRecord in u.additions && exists v :: v in u.additions[ReviewRecord] && ReviewJobHash(tc, v) == Some(h)
  }

  /** Height of the first update that wrote a review of job h. */
  function FirstWrite(tc: TextCodec, updates: seq<Update>, h: string): Option<int> {
    if updates == [] then None
    else
      var earlier := FirstWrite(tc, updates[..|updates| - 1], h);
      if earlier.Some? || !Writes(tc, updates[|updates| - 1], h) then earlier
      else Some(updates[|updates| - 1].height)
  }

  lemma {:induction false} ShownWhenWritten(tc: TextCodec, initial: ContentMap, updates: seq<Update>, h: string)
    requires ReviewRecord !in initial
    ensures var shown := FirstShowing(tc, SnapshotsOf(initial, updates), h);
      (match shown case None => None case Some(s) => s.height) == FirstWrite(tc, updates, h)
    ensures ReviewRecord in ContentAfter(initial, updates)
            && (exists v :: v in AsArray(ContentAfter(initial, updates)[ReviewRecord]) && ReviewJobHash(tc, v) == Some(h))
            ==> FirstWrite(tc, updates, h).Some?
    ensures forall s :: s in SnapshotsOf(initial, updates) ==> s.height.Some?
  {
    if updates != [] {
      var before, u := updates[..|updates| - 1], updates[|updates| - 1];
      ShownWhenWritten(tc, initial, before, h);
      var snaps := SnapshotsOf(initial, before);
      assert SnapshotsOf(initial, updates)[..|snaps|] == snaps;
      var content, next := ContentAfter(initial, before), ContentAfter(initial, updates);
      UpdateFrame(content, u.additions, ReviewRecord);
      if ReviewRecord in u.additions {
        assert AsArray(next[ReviewRecord]) == u.additions[ReviewRecord];
      }
      StoredArrays(content, u.additions);
      var s := Snapshot(Some(u.height), Some(next));
      assert Writes(tc, u, h) ==> Shows(tc, s, h);
      assert Shows(tc, s, h) ==> Writes(tc, u, h) || FirstWrite(tc, before, h).Some?;
      FirstShowingIsMember(tc, snaps, h);
    }
  }

  lemma StoredArrays(content: ContentMap, additions: Additions)
    ensures forall k :: k in Apply(content, additions) ==> Apply(content, additions)[k].Arr?
  {}

  lemma {:induction false} FirstShowingIsMember(tc: TextCodec, ordered: seq<Snapshot>, h: string)
    ensures FirstShowing(tc, ordered, h).Some? ==> FirstShowing(tc, ordered, h).value in ordered
  {
    if ordered != [] { FirstShowingIsMember(tc, ordered[..|ordered| - 1], h); }
  }

  lemma {:induction false} SnapshotsInOrder(initial: ContentMap, updates: seq<Update>)
    requires HeightsIncrease(updates)
    ensures |SnapshotsOf(initial, updates)| == |updates|
    ensures forall i :: 0 <= i < |updates| ==> SnapshotsOf(initial, updates)[i].height == Some(updates[i].height)
    ensures Sorted(InOrder, SnapshotsOf(initial, updates)) && DistinctHeights(SnapshotsOf(initial, updates))
  {
    if updates != [] {
      SnapshotsInOrder(initial, updates[..|updates| - 1]);
    }
  }

  lemma SnapshotsAreSorted(snaps: seq<Snapshot>)
    requires Sorted(InOrder, snaps) && DistinctHeights(snaps)
    ensures Sort(InOrder, snaps) == snaps
  {
    SortCorrect(InOrder, snaps);
    SortedUnique(InOrder, snaps, Sort(InOrder, snaps));
  }

  /** The promise of the module: however many updates replaced the review key, decoding the
      snapshots in any order returns each review ever written exactly once, at the height of its
      first write, oldest first. */
  lemma HistoryRecoversEveryReview(tc: TextCodec, initial: ContentMap, updates: seq<Update>,
                                   snapshots: seq<Snapshot>, h: string)
    requires HeightsIncrease(updates) && ReviewRecord !in initial
    requires multiset(snapshots) == multiset(SnapshotsOf(initial, updates))
    requires h != ""
    ensures var rows := RowsFor(ReviewHistory(tc, snapshots), h);
      match FirstWrite(tc, updates, h)
      case None => rows == []
      case Some(height) => |rows| == 1 && rows[0].height == Some(height) && rows[0].jobHash == Some(h)
    ensures Ascending(RowHeights(ReviewHistory(tc, snapshots)))
  {
    var snaps := SnapshotsOf(initial, updates);
    SnapshotsInOrder(initial, updates);
    ArrivalOrderIsIrrelevant(tc, snaps, snapshots);
    SnapshotsAreSorted(snaps);
    HistoryReportsEachJobOnce(tc, snapshots, h);
    ShownWhenWritten(tc, initial, updates, h);
    FirstShowingIsMember(tc, snaps, h);
    HistoryAscends(tc, snapshots);
  }

  function MentionCount(tc: TextCodec, entries: seq<Entry>, h: string): nat {
    if entries == [] then 0
    else MentionCount(tc, entries[..|entries| - 1], h)
         + if ReviewJobHash(tc, entries[|entries| - 1].value) == Some(h) then 1 else 0
  }

  /** The promise needs the non-empty hash: under the empty jobHash every entry is reported. */
  lemma {:induction false} EmptyJobHashIsNotDeduplicated(tc: TextCodec, entries: seq<Entry>)
    ensures |RowsFor(DecodeEntries(tc, entries).out, "")| == MentionCount(tc, entries, "")
  {
    if entries != [] {
      var before := entries[..|entries| - 1];
      EmptyJobHashIsNotDeduplicated(tc, before);
      var rows, next := DecodeEntries(tc, before).out, DecodeEntries(tc, entries).out;
      if next != rows { assert next[..|next| - 1] == rows; }
    }
  }

  /** So one job written twice under the empty hash, in two different records, has two rows. */
  lemma EmptyJobHashReportedTwice(tc: TextCodec, v: Json, w: Json, x: int, y: int)
    requires ReviewJobHash(tc, v) == Some("") && ReviewJobHash(tc, w) == Some("")
    requires v != w && x < y
    ensures |RowsFor(ReviewHistory(tc, SnapshotsOf(map[],
      [Update(x, map[ReviewRecord := [v]]), Update(y, map[ReviewRecord := [w]])])), "")| == 2
  {
    var a, b := TwoSnapshots(v, w, x, y);
    TwoEntries(a, b, v, w);
    var e, f := Entry(a.height, v), Entry(b.height, w);
    assert [e, f][..1] == [e] && [e][..0] == [];
    assert MentionCount(tc, [e], "") == 1;
    EmptyJobHashIsNotDeduplicated(tc, [e, f]);
  }

  /** Two records without a wrapper, both naming the empty jobHash. */
  function BareRecord(): Json { Obj([("jobHash", Str(""))]) }
  function OtherRecord(): Json { Obj([("jobHash", Str("")), ("rating", Num(5))]) }

  lemma BareRecordsNameNoJob(tc: TextCodec)
    ensures ReviewJobHash(tc, BareRecord()) == Some("") && ReviewJobHash(tc, OtherRecord()) == Some("")
    ensures BareRecord() != OtherRecord()
  {
    assert |"jobHash"| != |DATA_DESCRIPTOR_KEY| && |"rating"| != |DATA_DESCRIPTOR_KEY|;
    assert Field(BareRecord(), DATA_DESCRIPTOR_KEY) == None;
    assert OtherRecord().fields[1..] == [("rating", Num(5))];
    assert Field(OtherRecord(), DATA_DESCRIPTOR_KEY) == None;
    assert |BareRecord().fields| != |OtherRecord().fields|;
  }

  /** A job is never reported twice, whatever the snapshots, exactly if its hash is not empty. */
  lemma DeduplicationExactly(tc: TextCodec, h: string)
    ensures (forall snapshots :: |RowsFor(ReviewHistory(tc, snapshots), h)| <= 1) <==> h != ""
  {
    if h == "" {
      BareRecordsNameNoJob(tc);
      EmptyJobHashReportedTwice(tc, BareRecord(), OtherRecord(), 1, 2);
    } else {
      forall snapshots ensures |RowsFor(ReviewHistory(tc, snapshots), h)| <= 1 {
        HistoryReportsEachJobOnce(tc, snapshots, h);
      }
    }
  }

  lemma TwoSnapshots(v: Json, w: Json, x: int, y: int) returns (a: Snapshot, b: Snapshot)
    ensures SnapshotsOf(map[], [Update(x, map[ReviewRecord := [v]]), Update(y, map[ReviewRecord := [w]])]) == [a, b]
    ensures ValuesAt(a, ReviewRecord) == Some([v]) && ValuesAt(b, ReviewRecord) == Some([w])
    ensures a.height == Some(x) && b.height == Some(y)
  {
    var first, second := Update(x, map[ReviewRecord := [v]]), Update(y, map[ReviewRecord := [w]]);
    assert [first, second][..1] == [first] && [first][..0] == [];
    var none: ContentMap := map[];
    var one := Apply(none, first.additions);
    UpdateFrame(none, first.additions, ReviewRecord);
    UpdateFrame(one, second.additions, ReviewRecord);
    assert ContentAfter(none, [first]) == one;
    a, b := Snapshot(Some(x), Some(one)), Snapshot(Some(y), Some(Apply(one, second.additions)));
    assert SnapshotsOf(none, [first]) == [a];
  }

  lemma TwoEntries(a: Snapshot, b: Snapshot, v: Json, w: Json)
    requires ValuesAt(a, ReviewRecord) == Some([v]) && ValuesAt(b, ReviewRecord) == Some([w]) && v != w
    requires a.height.Some? && b.height.Some? && a.height.value < b.height.value
    ensures WalkSnapshots(Sort(InOrder, [a, b]), ReviewRecord).out == [Entry(a.height, v), Entry(b.height, w)]
  {
    assert [a, b][..1] == [a] && [a][..0] == [];
    assert Sort(InOrder, [a]) == [a];
    assert InOrder([a][|[a]| - 1], b) && Insert(InOrder, [a], b) == [a] + [b];
    assert Sort(InOrder, [a, b]) == [a, b];
    assert WalkSnapshots([a], ReviewRecord) == Walk([Entry(a.height, v)], Some([v]));
  }
}
