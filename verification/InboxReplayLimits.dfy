/** Where replay safety ends: items whose additions change with time, and items that share a key. */
module InboxReplayLimits {
  import opened Prelude
  import opened Vdxf
  import opened VdxfGate
  import opened IdentityUpdate
  import opened InboxBatch
  import opened InboxGuarantees
  import opened InboxRuns

  // ---- what hides what ----

  /** The job that `values` review is among those that `stored` names. */
  predicate SameReview(tc: TextCodec, values: seq<Json>, stored: seq<Json>) {
    FirstJobHash(tc, values).Some? && FirstJobHash(tc, values).value != "" &&
    exists v :: v in stored && ExtractJobHash(tc, v) == FirstJobHash(tc, values)
  }

  /** With `stored` under the key, `values` need no write: they are equal, or the review of the same
      job is there. */
  predicate Recognised(tc: TextCodec, k: Key, values: seq<Json>, stored: seq<Json>) {
    values == stored || (k == ReviewRecord && SameReview(tc, values, stored))
  }

  function ValuesOf(c: Candidate): seq<Json> {
    var k := KeyOf(c.ref.itemType);
    if k in c.additions then c.additions[k] else []
  }

  /** With the values of `shown` on-chain, c is of the same type and needs a write. */
  predicate Hidden(tc: TextCodec, shown: Candidate, c: Candidate) {
    shown.ref.itemType == c.ref.itemType && !Recognised(tc, KeyOf(c.ref.itemType), ValuesOf(c), ValuesOf(shown))
  }

  /** The chain shows what c adds. */
  predicate Shown(content: ContentMap, c: Candidate) {
    KeyOf(c.ref.itemType) in content && content[KeyOf(c.ref.itemType)] == Arr(ValuesOf(c))
  }

  predicate OneKey(c: Candidate) { c.additions.Keys == {KeyOf(c.ref.itemType)} }

  lemma PresentIfRecognised(tc: TextCodec, content: ContentMap, shown: Candidate, c: Candidate)
    requires OneKey(c) && shown.ref.itemType == c.ref.itemType && Shown(content, shown)
    ensures AlreadyPresent(tc, content, c.additions) <==> !Hidden(tc, shown, c)
  {
    var k := KeyOf(c.ref.itemType);
    assert k in c.additions;
    assert OnChainValues(content, k) == Some(ValuesOf(shown));
  }

  // ---- healthy cycles ----

  /** Nothing outside the items stands in the way of a broadcast. */
  ghost predicate Healthy(env: Env) {
    && env.agentReady && env.tip.Some? && env.broadcast.Some?
    && env.chain.Some? && env.chain.value.hasPrevOutput && env.chain.value.hasUtxos
    && forall a: Additions :: env.build(a)
  }

  /** The item passes its gate with additions that fit a single value and the budget. */
  ghost predicate Fits(c: Cycle, ref: Ref, a: Additions) {
    Gate(c.env, c.items, Candidate(ref, a)) && AdditionsSize(c.env.tc, a) <= c.maxBytes
  }

  lemma GateOne(env: Env, items: seq<Ref>, ref: Ref, a: Additions)
    requires Gate(env, items, Candidate(ref, a))
    ensures forall before: seq<Ref> :: GateAll(env, before + [ref]).candidates == GateAll(env, before).candidates + [Candidate(ref, a)]
  {
    forall before: seq<Ref>
      ensures GateAll(env, before + [ref]).candidates == GateAll(env, before).candidates + [Candidate(ref, a)]
    {
      assert (before + [ref])[..|before|] == before;
    }
  }

  /** In a healthy cycle the merged candidates are sent as they are. */
  lemma HealthyCycleSends(c: Cycle, cands: seq<Candidate>)
    requires Healthy(c.env) && c.items != [] && GateAll(c.env, c.items).candidates == cands && cands != []
    ensures var m := MergeAll(c.env.tc, c.env.chain.value.content, c.maxBytes, cands);
      StepOf(c) == Step(m.chosen, if m.chosen == [] then None else Some(m.merged))
  {}

  lemma LoneItemIsSent(c: Cycle, ref: Ref, a: Additions)
    requires Healthy(c.env) && c.items == [ref] && Fits(c, ref, a)
    requires !AlreadyPresent(c.env.tc, c.env.chain.value.content, a)
    ensures StepOf(c) == Step([Candidate(ref, a)], Some(a))
  {
    GateOne(c.env, c.items, ref, a);
    assert [] + [ref] == [ref];
    HealthyCycleSends(c, [Candidate(ref, a)]);
    assert [Candidate(ref, a)][..0] == [];
    assert map[] + a == a;
  }

  /** Writes c and nothing else. */
  predicate WritesOnly(s: Step, c: Candidate) { s == Step([c], Some(c.additions)) }

  lemma WrittenIsShown(content: ContentMap, c: Candidate)
    requires OneKey(c)
    ensures Shown(Apply(content, c.additions), c)
  {
    assert KeyOf(c.ref.itemType) in c.additions;
    UpdateFrame(content, c.additions, KeyOf(c.ref.itemType));
  }

  lemma NextIsShown(initial: ContentMap, steps: seq<Step>, c: Candidate, n: nat)
    requires 0 < n <= |steps| && WritesOnly(steps[n - 1], c) && OneKey(c)
    ensures Shown(ContentAfter(initial, steps[..n]), c)
  {
    assert steps[..n][..n - 1] == steps[..n - 1];
    WrittenIsShown(ContentAfter(initial, steps[..n - 1]), c);
  }

  /** Step i writes w[i + 1] if the chain shows w[i]. */
  ghost predicate Turn(initial: ContentMap, steps: seq<Step>, w: seq<Candidate>, i: nat) {
    && i < |steps| && |w| == |steps| + 1
    && (Shown(ContentAfter(initial, steps[..i]), w[i]) ==> WritesOnly(steps[i], w[i + 1]))
  }

  /** If a step writes w[i + 1] whenever the chain shows w[i], a chain that shows w[0] runs
      through the whole list. */
  lemma {:induction false} StepsFollow(initial: ContentMap, steps: seq<Step>, w: seq<Candidate>, n: nat)
    requires |w| == |steps| + 1 && n <= |steps|
    requires forall i :: 0 <= i < |w| ==> OneKey(w[i])
    requires Shown(initial, w[0])
    requires forall i :: 0 <= i < |steps| ==> Turn(initial, steps, w, i)
    ensures Shown(ContentAfter(initial, steps[..n]), w[n])
    ensures forall i :: 0 <= i < n ==> WritesOnly(steps[i], w[i + 1])
  {
    if n > 0 {
      StepsFollow(initial, steps, w, n - 1);
      assert Turn(initial, steps, w, n - 1);
      NextIsShown(initial, steps, w[n], n);
    }
  }

  // ---- synthesized job records ----

  function RecordAt(tc: TextCodec, ref: Ref, item: InboxItem, now: nat): Candidate {
    Candidate(ref, Synthesized(tc, item, now))
  }

  lemma RecordAtHasOneKey(tc: TextCodec, ref: Ref, item: InboxItem, now: nat)
    requires ref.itemType == JobRecordItem
    ensures OneKey(RecordAt(tc, ref, item, now))
    ensures ValuesOf(RecordAt(tc, ref, item, now)) == [SubDD(tc.address(JobRecord), tc.stringify(SynthesizedRecord(item, now)))]
  {
    assert JobRecord in Synthesized(tc, item, now);
  }

  /** Records made up at different seconds hide each other. */
  lemma RecordsHideEachOther(tc: TextCodec, ref: Ref, item: InboxItem, now: nat, earlier: nat)
    requires now != earlier && ref.itemType == JobRecordItem
    requires PrintsBack(tc, SynthesizedRecord(item, now)) && PrintsBack(tc, SynthesizedRecord(item, earlier))
    ensures Hidden(tc, RecordAt(tc, ref, item, earlier), RecordAt(tc, ref, item, now))
  {
    var newer, older := SynthesizedRecord(item, now), SynthesizedRecord(item, earlier);
    assert newer.fields[0] == ("timestamp", Num(now)) && older.fields[0] == ("timestamp", Num(earlier));
    assert tc.parse(tc.stringify(newer)) == Some(newer) && tc.parse(tc.stringify(older)) == Some(older);
    var a, b := SubDD(tc.address(JobRecord), tc.stringify(newer)), SubDD(tc.address(JobRecord), tc.stringify(older));
    assert a.fields[0].1.fields[3].1.fields[0].1 == Str(tc.stringify(newer));
    assert b.fields[0].1.fields[3].1.fields[0].1 == Str(tc.stringify(older));
    RecordAtHasOneKey(tc, ref, item, now);
    RecordAtHasOneKey(tc, ref, item, earlier);
    assert [a][0] != [b][0];
  }

  /** A healthy cycle that is handed nothing but the synthesized record. */
  ghost predicate LoneSynthesis(tc: TextCodec, c: Cycle, ref: Ref, item: InboxItem) {
    && Healthy(c.env) && c.env.tc == tc && c.items == [ref] && c.env.fetch(ref.id) == Item(item)
    && Fits(c, ref, Synthesized(tc, item, c.env.now))
  }

  lemma SynthesisIsSent(tc: TextCodec, content: ContentMap, c: Cycle, ref: Ref, item: InboxItem, earlier: nat)
    requires LoneSynthesis(tc, c, ref, item) && Reads(content, c) && c.env.now != earlier
    requires PrintsBack(tc, SynthesizedRecord(item, c.env.now)) && PrintsBack(tc, SynthesizedRecord(item, earlier))
    requires ref.itemType == JobRecordItem && Shown(content, RecordAt(tc, ref, item, earlier))
    ensures WritesOnly(StepOf(c), RecordAt(tc, ref, item, c.env.now))
  {
    RecordsHideEachOther(tc, ref, item, c.env.now, earlier);
    RecordAtHasOneKey(tc, ref, item, c.env.now);
    PresentIfRecognised(tc, content, RecordAt(tc, ref, item, earlier), RecordAt(tc, ref, item, c.env.now));
    LoneItemIsSent(c, ref, Synthesized(tc, item, c.env.now));
  }

  lemma SynthesisAt(tc: TextCodec, initial: ContentMap, cycles: seq<Cycle>, steps: seq<Step>,
                    ref: Ref, item: InboxItem, earlier: nat, i: nat)
    requires ref.itemType == JobRecordItem && i < |cycles| == |steps| && Follows(initial, cycles, steps, i)
    requires LoneSynthesis(tc, cycles[i], ref, item) && cycles[i].env.now != earlier
    requires PrintsBack(tc, SynthesizedRecord(item, cycles[i].env.now)) && PrintsBack(tc, SynthesizedRecord(item, earlier))
    ensures Shown(ContentAfter(initial, steps[..i]), RecordAt(tc, ref, item, earlier)) ==>
      WritesOnly(steps[i], RecordAt(tc, ref, item, cycles[i].env.now))
  {
    if Shown(ContentAfter(initial, steps[..i]), RecordAt(tc, ref, item, earlier)) {
      SynthesisIsSent(tc, ContentAfter(initial, steps[..i]), cycles[i], ref, item, earlier);
    }
  }

  function RecordsAt(tc: TextCodec, ref: Ref, item: InboxItem, times: seq<nat>): seq<Candidate> {
    seq(|times|, i requires 0 <= i < |times| => RecordAt(tc, ref, item, times[i]))
  }

  /** A synthesized job record carries the second it was built in, so the on-chain check never
      recognises it. Once one is on-chain, healthy cycles whose acks keep failing broadcast it
      again every single time, if only the clock moves between them. */
  lemma SynthesizedRecordIsSentEveryCycle(tc: TextCodec, initial: ContentMap, cycles: seq<Cycle>, steps: seq<Step>,
                                          ref: Ref, item: InboxItem, times: seq<nat>)
    requires Synthesizes(ref, item) && IsRun(initial, cycles, steps)
    requires forall i :: 0 <= i < |times| ==> PrintsBack(tc, SynthesizedRecord(item, times[i]))
    requires |times| == |cycles| + 1 && Shown(initial, RecordAt(tc, ref, item, times[0]))
    requires forall i :: 0 <= i < |cycles| ==> LoneSynthesis(tc, cycles[i], ref, item) && cycles[i].env.now == times[i + 1]
    requires forall i :: 0 <= i < |cycles| ==> times[i] != times[i + 1]
    ensures forall i :: 0 <= i < |steps| ==> WritesOnly(steps[i], RecordsAt(tc, ref, item, times)[i + 1])
  {
    var w := RecordsAt(tc, ref, item, times);
    forall i | 0 <= i < |steps| ensures Turn(initial, steps, w, i) {
      SynthesisAt(tc, initial, cycles, steps, ref, item, times[i], i);
    }
    forall i | 0 <= i < |w| ensures OneKey(w[i]) { RecordAtHasOneKey(tc, ref, item, times[i]); }
    StepsFollow(initial, steps, w, |steps|);
  }

  // ---- items that share a key ----

  /** Two items of one type that hide each other. */
  predicate Rivals(tc: TextCodec, r: Candidate, s: Candidate) {
    r.ref.id != s.ref.id && OneKey(r) && OneKey(s) && Hidden(tc, r, s) && Hidden(tc, s, r)
  }

  /** A healthy cycle that is handed both rivals. */
  ghost predicate BothPending(c: Cycle, r: Candidate, s: Candidate) {
    && Healthy(c.env) && c.items == [r.ref, s.ref] && GateAll(c.env, c.items).candidates == [r, s]
    && AdditionsSize(c.env.tc, r.additions) <= c.maxBytes && AdditionsSize(c.env.tc, s.additions) <= c.maxBytes
  }

  lemma MergePush(tc: TextCodec, chain: ContentMap, maxBytes: nat, cs: seq<Candidate>, c: Candidate)
    ensures MergeAll(tc, chain, maxBytes, cs + [c]) == MergeItem(tc, chain, maxBytes, MergeAll(tc, chain, maxBytes, cs), c)
  {
    assert (cs + [c])[..|cs|] == cs;
  }

  lemma EmptyUnion(a: Additions)
    ensures map[] + a == a
  {}

  lemma MergeOfRivals(tc: TextCodec, chain: ContentMap, maxBytes: nat, r: Candidate, s: Candidate)
    requires AdditionsSize(tc, r.additions) <= maxBytes && AdditionsSize(tc, s.additions) <= maxBytes
    requires AlreadyPresent(tc, chain, r.additions) != AlreadyPresent(tc, chain, s.additions)
    ensures var m := MergeAll(tc, chain, maxBytes, [r, s]);
      var hidden := if AlreadyPresent(tc, chain, r.additions) then s else r;
      m.chosen == [hidden] && m.merged == hidden.additions
  {
    MergePush(tc, chain, maxBytes, [], r);
    MergePush(tc, chain, maxBytes, [r], s);
    assert [] + [r] == [r] && [r] + [s] == [r, s];
    EmptyUnion(r.additions);
    EmptyUnion(s.additions);
  }

  lemma ItselfIsPresent(tc: TextCodec, content: ContentMap, c: Candidate)
    requires OneKey(c) && Shown(content, c)
    ensures AlreadyPresent(tc, content, c.additions)
  {
    PresentIfRecognised(tc, content, c, c);
  }

  lemma HiddenRivalIsSent(tc: TextCodec, content: ContentMap, c: Cycle, r: Candidate, s: Candidate)
    requires c.env.tc == tc && Rivals(tc, r, s) && BothPending(c, r, s) && Reads(content, c)
    ensures Shown(content, s) ==> WritesOnly(StepOf(c), r)
    ensures Shown(content, r) ==> WritesOnly(StepOf(c), s)
  {
    HealthyCycleSends(c, [r, s]);
    if Shown(content, s) {
      PresentIfRecognised(tc, content, s, r);
      ItselfIsPresent(tc, content, s);
      MergeOfRivals(tc, content, c.maxBytes, r, s);
    } else if Shown(content, r) {
      PresentIfRecognised(tc, content, r, s);
      ItselfIsPresent(tc, content, r);
      MergeOfRivals(tc, content, c.maxBytes, r, s);
    }
  }

  /** Step i of the run is a healthy cycle that is handed both rivals. */
  ghost predicate RivalCycle(tc: TextCodec, initial: ContentMap, cycles: seq<Cycle>, steps: seq<Step>, r: Candidate, s: Candidate, i: nat) {
    && i < |cycles| == |steps| && Follows(initial, cycles, steps, i)
    && cycles[i].env.tc == tc && BothPending(cycles[i], r, s)
  }

  lemma RivalsTakeTurns(tc: TextCodec, initial: ContentMap, cycles: seq<Cycle>, steps: seq<Step>, r: Candidate, s: Candidate,
                        i: nat, shown: Candidate, sent: Candidate)
    requires Rivals(tc, r, s) && RivalCycle(tc, initial, cycles, steps, r, s, i)
    requires (shown == s && sent == r) || (shown == r && sent == s)
    ensures Shown(ContentAfter(initial, steps[..i]), shown) ==> WritesOnly(steps[i], sent)
  {
    HiddenRivalIsSent(tc, ContentAfter(initial, steps[..i]), cycles[i], r, s);
  }

  /** s, r, s, r, ... */
  function Alternation(r: Candidate, s: Candidate, n: nat): seq<Candidate> {
    seq(n, i => if i % 2 == 0 then s else r)
  }

  lemma AlternationAt(r: Candidate, s: Candidate, n: nat, i: nat)
    requires i + 1 < n
    ensures var w := Alternation(r, s, n); (w[i] == s && w[i + 1] == r) || (w[i] == r && w[i + 1] == s)
  {
    assert i % 2 == 0 || i % 2 == 1;
  }

  /** Two items that hide each other take turns on-chain: while both stay pending, every healthy
      cycle broadcasts the one the chain does not show, so each is sent again every second cycle. */
  lemma RivalsAlternateForever(tc: TextCodec, initial: ContentMap, cycles: seq<Cycle>, steps: seq<Step>,
                               r: Candidate, s: Candidate)
    requires |cycles| == |steps| && Rivals(tc, r, s) && Shown(initial, s)
    requires forall i :: 0 <= i < |steps| ==> RivalCycle(tc, initial, cycles, steps, r, s, i)
    ensures forall i :: 0 <= i < |steps| ==> WritesOnly(steps[i], Alternation(r, s, |steps| + 1)[i + 1])
  {
    var w := Alternation(r, s, |steps| + 1);
    forall i | 0 <= i < |steps| ensures Turn(initial, steps, w, i) {
      AlternationAt(r, s, |steps| + 1, i);
      RivalsTakeTurns(tc, initial, cycles, steps, r, s, i, w[i], w[i + 1]);
    }
    StepsFollow(initial, steps, w, |steps|);
  }
}
