/** When repeated cycles broadcast an item twice: the exact condition, with the runs that do. */
module InboxReplay {
  import opened Prelude
  import opened Vdxf
  import opened VdxfGate
  import opened IdentityUpdate
  import opened InboxBatch
  import opened InboxGuarantees
  import opened InboxRuns
  import opened InboxReplayLimits

  /** Once s is on-chain, r needs a write. */
  predicate Displaces(tc: TextCodec, adds: map<Ref, Additions>, s: Ref, r: Ref) {
    s in adds && r in adds && Hidden(tc, Candidate(s, adds[s]), Candidate(r, adds[r]))
  }

  /** Each item of the path needs a write once the one before it is on-chain. */
  ghost predicate Chased(tc: TextCodec, adds: map<Ref, Additions>, path: seq<Ref>) {
    forall i :: 0 < i < |path| ==> Displaces(tc, adds, path[i - 1], path[i])
  }

  /** Items that displace each other in a circle. */
  ghost predicate Circle(tc: TextCodec, adds: map<Ref, Additions>, path: seq<Ref>) {
    |path| >= 2 && path[0] == path[|path| - 1] && Chased(tc, adds, path)
  }

  ghost predicate ServedRun(tc: TextCodec, pool: Pool, initial: ContentMap, cycles: seq<Cycle>, steps: seq<Step>) {
    IsRun(initial, cycles, steps) && forall n :: 0 <= n < |cycles| ==> Serves(tc, pool, cycles[n])
  }

  ghost predicate CarriedTwice(steps: seq<Step>) {
    exists i, j, ref :: 0 <= i < j < |steps| && Carries(steps[i], ref) && Carries(steps[j], ref)
  }

  /** Over no initial content and no run that serves the pool is an item broadcast twice. */
  ghost predicate ReplaySafe(tc: TextCodec, pool: Pool) {
    forall initial, cycles, steps :: ServedRun(tc, pool, initial, cycles, steps) ==> !CarriedTwice(steps)
  }

  lemma PassedKey(tc: TextCodec, ref: Ref, item: InboxItem, now: nat)
    requires PassedAt(tc, ref, item, now).Some?
    ensures PassedAt(tc, ref, item, now).value.Keys == {KeyOf(ref.itemType)}
  {
    var a := PassedAt(tc, ref, item, now).value;
    GateIsTight(tc, ref.itemType, item, now);
    forall k | k in a ensures k == KeyOf(ref.itemType) { assert Allows(ref.itemType, k); }
    var k :| k in a.Keys;
    assert a.Keys == {KeyOf(ref.itemType)};
  }

  // ---- no circle, no second broadcast ----

  ghost predicate OneKeyEach(adds: map<Ref, Additions>) { forall r :: r in adds ==> adds[r].Keys == {KeyOf(r.itemType)} }

  /** The step sends what its items add, and none of it was on-chain. */
  ghost predicate NewsOnly(tc: TextCodec, adds: map<Ref, Additions>, content: ContentMap, s: Step) {
    Sends(adds, s) && Novel(tc, content, s)
  }

  function AfterStep(content: ContentMap, s: Step): ContentMap {
    if s.sent.Some? then Apply(content, s.sent.value) else content
  }

  ghost predicate OneByOne(tc: TextCodec, adds: map<Ref, Additions>, initial: ContentMap, steps: seq<Step>) {
    forall n :: 0 <= n < |steps| ==> NewsOnly(tc, adds, ContentAfter(initial, steps[..n]), steps[n])
  }

  lemma OneByOneBefore(tc: TextCodec, adds: map<Ref, Additions>, initial: ContentMap, steps: seq<Step>, n: nat)
    requires OneByOne(tc, adds, initial, steps) && n <= |steps|
    ensures OneByOne(tc, adds, initial, steps[..n])
  {
    forall m | 0 <= m < n ensures NewsOnly(tc, adds, ContentAfter(initial, steps[..n][..m]), steps[..n][m]) {
      assert steps[..n][..m] == steps[..m];
    }
  }

  lemma CarriedIsShown(adds: map<Ref, Additions>, content: ContentMap, s: Step, ref: Ref)
    requires Sends(adds, s) && Carries(s, ref)
    requires OneKeyEach(adds)
    ensures s.sent.Some? && ref in adds && Shown(AfterStep(content, s), Candidate(ref, adds[ref]))
  {
    var d :| d in s.carried && d.ref == ref;
    assert KeyOf(ref.itemType) in adds[ref];
    CarriedKeyIsShown(adds, content, s, ref, KeyOf(ref.itemType));
  }

  lemma KeyIsInboxKey(t: ItemType, k: Key, content: ContentMap, sent: Additions)
    requires k == KeyOf(t) && k !in sent && k in content && content[k].Arr?
    ensures k in Apply(content, sent) && Apply(content, sent)[k] == content[k]
  {
    UpdateFrame(content, sent, k);
  }

  lemma NovelIsDisplaced(tc: TextCodec, adds: map<Ref, Additions>, content: ContentMap, s: Step, last: Ref, d: Candidate)
    requires OneKeyEach(adds)
    requires NewsOnly(tc, adds, content, s) && d in s.carried && KeyOf(last.itemType) in d.additions
    requires last in adds && Shown(content, Candidate(last, adds[last]))
    ensures d.ref in adds && d.ref.itemType == last.itemType && Displaces(tc, adds, last, d.ref)
  {
    assert d.additions == adds[d.ref];
    assert KeyOf(d.ref.itemType) == KeyOf(last.itemType);
    PresentIfRecognised(tc, content, Candidate(last, adds[last]), Candidate(d.ref, adds[d.ref]));
  }

  /** A step that writes the key shows the next item. */
  lemma NextShown(tc: TextCodec, adds: map<Ref, Additions>, content: ContentMap, s: Step, last: Ref) returns (r: Ref)
    requires OneKeyEach(adds)
    requires NewsOnly(tc, adds, content, s) && last in adds && Shown(content, Candidate(last, adds[last]))
    requires s.sent.Some? && KeyOf(last.itemType) in s.sent.value
    ensures r in adds && r.itemType == last.itemType && Displaces(tc, adds, last, r)
    ensures Shown(AfterStep(content, s), Candidate(r, adds[r]))
  {
    var d :| d in s.carried && KeyOf(last.itemType) in d.additions;
    NovelIsDisplaced(tc, adds, content, s, last, d);
    r := d.ref;
    CarriedIsShown(adds, content, s, r);
  }

  lemma ChasedFurther(tc: TextCodec, adds: map<Ref, Additions>, path: seq<Ref>, r: Ref)
    requires path != [] && Chased(tc, adds, path) && Displaces(tc, adds, path[|path| - 1], r)
    ensures Chased(tc, adds, path + [r])
  {
  }

  /** The path leads from `ref` to the item whose values the chain shows. */
  ghost predicate LeadsTo(tc: TextCodec, adds: map<Ref, Additions>, content: ContentMap, ref: Ref, path: seq<Ref>) {
    && path != [] && path[0] == ref && Chased(tc, adds, path)
    && var last := path[|path| - 1];
      last in adds && last.itemType == ref.itemType && Shown(content, Candidate(last, adds[last]))
  }

  /** One step either leaves what the chain shows under the key, or shows the next item of the path. */
  lemma PathStep(tc: TextCodec, adds: map<Ref, Additions>, content: ContentMap, s: Step, ref: Ref, path: seq<Ref>)
      returns (longer: seq<Ref>)
    requires OneKeyEach(adds) && NewsOnly(tc, adds, content, s) && LeadsTo(tc, adds, content, ref, path)
    ensures LeadsTo(tc, adds, AfterStep(content, s), ref, longer)
  {
    var last := path[|path| - 1];
    longer := path;
    if s.sent.Some? {
      if KeyOf(last.itemType) in s.sent.value {
        var r := NextShown(tc, adds, content, s, last);
        ChasedFurther(tc, adds, path, r);
        longer := path + [r];
      } else {
        KeyIsInboxKey(last.itemType, KeyOf(last.itemType), content, s.sent.value);
      }
    }
  }

  lemma PathStart(tc: TextCodec, adds: map<Ref, Additions>, content: ContentMap, s: Step, ref: Ref)
    requires OneKeyEach(adds) && NewsOnly(tc, adds, content, s) && Carries(s, ref)
    ensures LeadsTo(tc, adds, AfterStep(content, s), ref, [ref])
  {
    CarriedIsShown(adds, content, s, ref);
  }

  lemma StepAt(tc: TextCodec, adds: map<Ref, Additions>, initial: ContentMap, steps: seq<Step>, n: nat)
    requires OneByOne(tc, adds, initial, steps) && n < |steps|
    ensures NewsOnly(tc, adds, ContentAfter(initial, steps[..n]), steps[n])
    ensures ContentAfter(initial, steps[..n + 1]) == AfterStep(ContentAfter(initial, steps[..n]), steps[n])
  {
    assert steps[..n + 1][..n] == steps[..n];
  }

  /** Once an item was carried, a chased path leads from it to what the chain shows. */
  lemma PathFrom(tc: TextCodec, adds: map<Ref, Additions>, initial: ContentMap, steps: seq<Step>, i: nat, ref: Ref)
      returns (path: seq<Ref>)
    requires OneKeyEach(adds) && OneByOne(tc, adds, initial, steps)
    requires i < |steps| && Carries(steps[i], ref)
    ensures LeadsTo(tc, adds, ContentAfter(initial, steps), ref, path)
  {
    path := [ref];
    StepAt(tc, adds, initial, steps, i);
    PathStart(tc, adds, ContentAfter(initial, steps[..i]), steps[i], ref);
    for n := i + 1 to |steps|
      invariant LeadsTo(tc, adds, ContentAfter(initial, steps[..n]), ref, path)
    {
      StepAt(tc, adds, initial, steps, n);
      path := PathStep(tc, adds, ContentAfter(initial, steps[..n]), steps[n], ref, path);
    }
    assert steps[..|steps|] == steps;
  }

  lemma PoolKeys(tc: TextCodec, pool: Pool)
    ensures OneKeyEach(AdditionsOf(tc, pool))
  {
    forall r | r in AdditionsOf(tc, pool) ensures AdditionsOf(tc, pool)[r].Keys == {KeyOf(r.itemType)} {
      PassedKey(tc, r, pool[r], TimeOf(tc, r, pool[r]));
    }
  }

  lemma RunIsFaithful(tc: TextCodec, pool: Pool, initial: ContentMap, cycles: seq<Cycle>, steps: seq<Step>)
    requires ServedRun(tc, pool, initial, cycles, steps) && Steady(tc, pool)
    ensures OneByOne(tc, AdditionsOf(tc, pool), initial, steps)
  {
    forall n | 0 <= n < |steps| ensures NewsOnly(tc, AdditionsOf(tc, pool), ContentAfter(initial, steps[..n]), steps[n]) {
      assert Follows(initial, cycles, steps, n);
      CyclesAreFaithful(tc, pool, ContentAfter(initial, steps[..n]), cycles[n]);
    }
  }

  /** An item carried twice closes a circle. */
  lemma SecondBroadcastClosesCircle(tc: TextCodec, pool: Pool, initial: ContentMap, cycles: seq<Cycle>, steps: seq<Step>,
                                    i: nat, j: nat, ref: Ref) returns (path: seq<Ref>)
    requires ServedRun(tc, pool, initial, cycles, steps) && Steady(tc, pool)
    requires i < j < |steps| && Carries(steps[i], ref) && Carries(steps[j], ref)
    ensures Circle(tc, AdditionsOf(tc, pool), path)
  {
    var adds := AdditionsOf(tc, pool);
    RunIsFaithful(tc, pool, initial, cycles, steps);
    PoolKeys(tc, pool);
    var before := steps[..j];
    OneByOneBefore(tc, adds, initial, steps, j);
    assert NewsOnly(tc, adds, ContentAfter(initial, before), steps[j]);
    var way := PathFrom(tc, adds, initial, before, i, ref);
    var d :| d in steps[j].carried && d.ref == ref;
    assert KeyOf(ref.itemType) in adds[ref];
    NovelIsDisplaced(tc, adds, ContentAfter(initial, before), steps[j], way[|way| - 1], d);
    path := way + [ref];
  }

  // ---- runs that broadcast twice ----

  /** A cycle in which everything works but the acks, handed one item. */
  function WitnessCycle(tc: TextCodec, pool: Pool, content: ContentMap, ref: Ref, now: nat, maxBytes: nat): Cycle
    requires ref in pool
  {
    var item := pool[ref].(pending := true);
    Cycle(Env(true, tc, _ => Item(item), now, Some(ChainRead(content, true, true)), Some(0), _ => true, Some("txid"), _ => AckError),
          [ref], maxBytes)
  }

  lemma WitnessCycleSends(tc: TextCodec, pool: Pool, content: ContentMap, ref: Ref, now: nat, a: Additions) returns (c: Cycle)
    requires ref in pool && PassedAt(tc, ref, pool[ref], now) == Some(a) && !AlreadyPresent(tc, content, a)
    ensures Reads(content, c) && Serves(tc, pool, c) && StepOf(c) == Step([Candidate(ref, a)], Some(a))
  {
    c := WitnessCycle(tc, pool, content, ref, now, AdditionsSize(tc, a));
    assert [ref][..0] == [];
    OneItemIsDistinct(ref);
    assert ref in c.items;
    LoneItemIsSent(c, ref, a);
  }

  /** Every entry passes its gate at its time, and needs a write once the one before it is shown. */
  ghost predicate Playable(tc: TextCodec, pool: Pool, w: seq<Candidate>, times: seq<nat>) {
    && |w| == |times|
    && (forall i :: 0 <= i < |w| ==>
          w[i].ref in pool && PassedAt(tc, w[i].ref, pool[w[i].ref], times[i]) == Some(w[i].additions))
    && (forall i :: 0 < i < |w| ==> Hidden(tc, w[i - 1], w[i]))
  }

  ghost predicate Plays(tc: TextCodec, pool: Pool, w: seq<Candidate>, cycles: seq<Cycle>, steps: seq<Step>) {
    && ServedRun(tc, pool, map[], cycles, steps) && |steps| == |w|
    && (forall i :: 0 <= i < |w| ==> WritesOnly(steps[i], w[i]))
    && (w != [] ==> Shown(ContentAfter(map[], steps), w[|w| - 1]))
  }

  lemma EmptyChainShowsNothing(tc: TextCodec, c: Candidate)
    requires OneKey(c)
    ensures !AlreadyPresent(tc, map[], c.additions)
  {
    assert KeyOf(c.ref.itemType) in c.additions;
  }

  lemma RunGoesOn(tc: TextCodec, pool: Pool, cycles: seq<Cycle>, steps: seq<Step>, c: Cycle)
    requires ServedRun(tc, pool, map[], cycles, steps)
    requires Reads(ContentAfter(map[], steps), c) && Serves(tc, pool, c)
    ensures ServedRun(tc, pool, map[], cycles + [c], steps + [StepOf(c)])
  {
    var cs, ss, n := cycles + [c], steps + [StepOf(c)], |steps|;
    forall i | 0 <= i <= n ensures Follows(map[], cs, ss, i) {
      assert ss[..i] == steps[..i];
      if i < n { assert Follows(map[], cycles, steps, i); } else { assert steps[..n] == steps; }
    }
  }

  lemma PlayOn(tc: TextCodec, pool: Pool, w: seq<Candidate>, last: Candidate, cycles: seq<Cycle>, steps: seq<Step>, c: Cycle)
    requires Plays(tc, pool, w, cycles, steps)
    requires Reads(ContentAfter(map[], steps), c) && Serves(tc, pool, c) && WritesOnly(StepOf(c), last) && OneKey(last)
    ensures Plays(tc, pool, w + [last], cycles + [c], steps + [StepOf(c)])
  {
    RunGoesOn(tc, pool, cycles, steps, c);
    assert (steps + [StepOf(c)])[..|steps| + 1] == steps + [StepOf(c)];
    NextIsShown(map[], steps + [StepOf(c)], last, |steps| + 1);
  }

  /** The cycle that broadcasts the next entry. */
  lemma PlayNext(tc: TextCodec, pool: Pool, w: seq<Candidate>, times: seq<nat>, n: nat, cycles: seq<Cycle>, steps: seq<Step>)
      returns (c: Cycle)
    requires Playable(tc, pool, w, times) && n < |w| && Plays(tc, pool, w[..n], cycles, steps)
    ensures Reads(ContentAfter(map[], steps), c) && Serves(tc, pool, c) && WritesOnly(StepOf(c), w[n]) && OneKey(w[n])
  {
    var content := ContentAfter(map[], steps);
    PassedKey(tc, w[n].ref, pool[w[n].ref], times[n]);
    if n > 0 {
      assert w[..n][n - 1] == w[n - 1];
      PresentIfRecognised(tc, content, w[n - 1], w[n]);
    } else {
      assert steps == [];
      EmptyChainShowsNothing(tc, w[n]);
    }
    c := WitnessCycleSends(tc, pool, content, w[n].ref, times[n], w[n].additions);
  }

  lemma PlayOnce(tc: TextCodec, pool: Pool, w: seq<Candidate>, times: seq<nat>, n: nat, cycles: seq<Cycle>, steps: seq<Step>)
      returns (longer: seq<Cycle>, further: seq<Step>)
    requires Playable(tc, pool, w, times) && n < |w| && Plays(tc, pool, w[..n], cycles, steps)
    ensures Plays(tc, pool, w[..n + 1], longer, further)
  {
    var c := PlayNext(tc, pool, w, times, n, cycles, steps);
    PlayOn(tc, pool, w[..n], w[n], cycles, steps, c);
    longer, further := cycles + [c], steps + [StepOf(c)];
    assert w[..n + 1] == w[..n] + [w[n]];
  }

  /** A playable list is broadcast, one entry per cycle, starting from an empty map. */
  lemma {:induction false} Play(tc: TextCodec, pool: Pool, w: seq<Candidate>, times: seq<nat>, n: nat)
      returns (cycles: seq<Cycle>, steps: seq<Step>)
    requires Playable(tc, pool, w, times) && n <= |w|
    ensures Plays(tc, pool, w[..n], cycles, steps)
  {
    if n == 0 {
      cycles, steps := [], [];
    } else {
      cycles, steps := Play(tc, pool, w, times, n - 1);
      cycles, steps := PlayOnce(tc, pool, w, times, n - 1, cycles, steps);
    }
  }

  lemma PlayAll(tc: TextCodec, pool: Pool, w: seq<Candidate>, times: seq<nat>) returns (cycles: seq<Cycle>, steps: seq<Step>)
    requires Playable(tc, pool, w, times)
    ensures Plays(tc, pool, w, cycles, steps)
  {
    cycles, steps := Play(tc, pool, w, times, |w|);
    assert w[..|w|] == w;
  }

  lemma SentTwice(steps: seq<Step>, i: nat, j: nat, c: Candidate, d: Candidate)
    requires i < j < |steps| && WritesOnly(steps[i], c) && WritesOnly(steps[j], d) && c.ref == d.ref
    ensures CarriedTwice(steps)
  {
    assert c in steps[i].carried && d in steps[j].carried;
    assert Carries(steps[i], c.ref) && Carries(steps[j], c.ref);
  }

  lemma PlayedTwice(tc: TextCodec, pool: Pool, w: seq<Candidate>, times: seq<nat>)
    requires Playable(tc, pool, w, times) && |w| >= 2 && w[0].ref == w[|w| - 1].ref
    ensures !ReplaySafe(tc, pool)
  {
    var cycles, steps := PlayAll(tc, pool, w, times);
    SentTwice(steps, 0, |w| - 1, w[0], w[|w| - 1]);
  }

  /** The items of a chased path are broadcast one after the other. */
  lemma PlayPath(tc: TextCodec, pool: Pool, path: seq<Ref>) returns (cycles: seq<Cycle>, steps: seq<Step>)
    requires Chased(tc, AdditionsOf(tc, pool), path) && forall i :: 0 <= i < |path| ==> path[i] in AdditionsOf(tc, pool)
    ensures ServedRun(tc, pool, map[], cycles, steps) && |steps| == |path|
    ensures forall i :: 0 <= i < |path| ==> WritesOnly(steps[i], Candidate(path[i], AdditionsOf(tc, pool)[path[i]]))
  {
    var adds := AdditionsOf(tc, pool);
    var w := seq(|path|, i requires 0 <= i < |path| => Candidate(path[i], adds[path[i]]));
    var times := seq(|path|, i requires 0 <= i < |path| => TimeOf(tc, path[i], pool[path[i]]));
    forall i | 0 < i < |w| ensures Hidden(tc, w[i - 1], w[i]) { assert Displaces(tc, adds, path[i - 1], path[i]); }
    cycles, steps := PlayAll(tc, pool, w, times);
  }

  /** Items in a circle are sent round it. */
  lemma CircleBreaksSafety(tc: TextCodec, pool: Pool, path: seq<Ref>)
    requires Circle(tc, AdditionsOf(tc, pool), path)
    ensures !ReplaySafe(tc, pool)
  {
    var adds, n := AdditionsOf(tc, pool), |path| - 1;
    forall i | 0 <= i < |path| ensures path[i] in adds {
      if i > 0 { assert Displaces(tc, adds, path[i - 1], path[i]); } else { assert Displaces(tc, adds, path[0], path[1]); }
    }
    var cycles, steps := PlayPath(tc, pool, path);
    SentTwice(steps, 0, n, Candidate(path[0], adds[path[0]]), Candidate(path[n], adds[path[n]]));
  }

  // ---- additions that change with time ----

  lemma ChangingItemBreaksSafety(tc: TextCodec, pool: Pool, ref: Ref, t: nat, u: nat)
    requires ref in pool && PassedAt(tc, ref, pool[ref], t).Some? && PassedAt(tc, ref, pool[ref], u).Some?
    requires PassedAt(tc, ref, pool[ref], t) != PassedAt(tc, ref, pool[ref], u)
    ensures !ReplaySafe(tc, pool)
  {
    var first := Candidate(ref, PassedAt(tc, ref, pool[ref], t).value);
    var second := Candidate(ref, PassedAt(tc, ref, pool[ref], u).value);
    PassedKey(tc, ref, pool[ref], t);
    PassedKey(tc, ref, pool[ref], u);
    assert Synthesizes(ref, pool[ref]);
    assert JobRecord in first.additions && JobRecord in second.additions;
    assert first.additions != second.additions;
    assert ValuesOf(first) != ValuesOf(second);
    PlayedTwice(tc, pool, [first, second], [t, u]);
  }

  /** Replay safety, exactly: over all runs that serve the pool no item is broadcast twice if and
      only if no item's additions change with time and no items displace each other in a circle. */
  lemma ReplaySafetyExactly(tc: TextCodec, pool: Pool)
    ensures ReplaySafe(tc, pool) <==> Steady(tc, pool) && !(exists path :: Circle(tc, AdditionsOf(tc, pool), path))
  {
    if !Steady(tc, pool) {
      var r, t, u :| r in pool && PassedAt(tc, r, pool[r], t).Some? && PassedAt(tc, r, pool[r], u).Some?
        && PassedAt(tc, r, pool[r], t) != PassedAt(tc, r, pool[r], u);
      ChangingItemBreaksSafety(tc, pool, r, t, u);
    } else if exists path :: Circle(tc, AdditionsOf(tc, pool), path) {
      var path :| Circle(tc, AdditionsOf(tc, pool), path);
      CircleBreaksSafety(tc, pool, path);
    } else {
      forall initial, cycles, steps | ServedRun(tc, pool, initial, cycles, steps) ensures !CarriedTwice(steps) {
        NoCircleNoSecond(tc, pool, initial, cycles, steps);
      }
    }
  }

  /** The record passes its gate at these two seconds, and both texts read back. */
  predicate PassesAtBoth(tc: TextCodec, ref: Ref, item: InboxItem, t: nat, u: nat) {
    && t != u && PassedAt(tc, ref, item, t).Some? && PassedAt(tc, ref, item, u).Some?
    && PrintsBack(tc, SynthesizedRecord(item, t)) && PrintsBack(tc, SynthesizedRecord(item, u))
  }

  /** Every record the gate makes up for the pool fits at two different seconds. */
  ghost predicate RecordsFit(tc: TextCodec, pool: Pool) {
    forall r :: r in pool && Synthesizes(r, pool[r]) ==> exists t, u :: PassesAtBoth(tc, r, pool[r], t, u)
  }

  /** Additions change with time exactly where the gate makes them up. */
  lemma SteadyExactly(tc: TextCodec, pool: Pool)
    requires RecordsFit(tc, pool)
    ensures Steady(tc, pool) <==> NoneSynthesized(pool)
  {
    if NoneSynthesized(pool) {
      PayloadsAreSteady(tc, pool);
    } else {
      var r :| r in pool && Synthesizes(r, pool[r]);
      var t, u :| PassesAtBoth(tc, r, pool[r], t, u);
      RecordsChange(tc, r, pool[r], t, u);
    }
  }

  lemma RecordsChange(tc: TextCodec, ref: Ref, item: InboxItem, t: nat, u: nat)
    requires Synthesizes(ref, item) && PassesAtBoth(tc, ref, item, t, u)
    ensures PassedAt(tc, ref, item, t) != PassedAt(tc, ref, item, u)
  {
    RecordsHideEachOther(tc, ref, item, u, t);
  }

  lemma NoCircleNoSecond(tc: TextCodec, pool: Pool, initial: ContentMap, cycles: seq<Cycle>, steps: seq<Step>)
    requires ServedRun(tc, pool, initial, cycles, steps) && Steady(tc, pool)
    ensures CarriedTwice(steps) ==> exists path :: Circle(tc, AdditionsOf(tc, pool), path)
  {
    if CarriedTwice(steps) {
      var i, j, ref :| 0 <= i < j < |steps| && Carries(steps[i], ref) && Carries(steps[j], ref);
      var path := SecondBroadcastClosesCircle(tc, pool, initial, cycles, steps, i, j, ref);
    }
  }

  /** A record the gate makes up is broadcast in every cycle of a run, as often as one likes, if only
      the clock moves between its cycles. */
  lemma RecordRunsForever(tc: TextCodec, pool: Pool, ref: Ref, times: seq<nat>) returns (cycles: seq<Cycle>, steps: seq<Step>)
    requires ref in pool && Synthesizes(ref, pool[ref])
    requires forall i :: 0 <= i < |times| ==> PassedAt(tc, ref, pool[ref], times[i]).Some? && PrintsBack(tc, SynthesizedRecord(pool[ref], times[i]))
    requires forall i :: 0 < i < |times| ==> times[i - 1] != times[i]
    ensures ServedRun(tc, pool, map[], cycles, steps) && |steps| == |times|
    ensures forall i :: 0 <= i < |steps| ==> WritesOnly(steps[i], RecordAt(tc, ref, pool[ref], times[i]))
  {
    var w := RecordsAt(tc, ref, pool[ref], times);
    forall i | 0 < i < |w| ensures Hidden(tc, w[i - 1], w[i]) {
      RecordsHideEachOther(tc, ref, pool[ref], times[i], times[i - 1]);
    }
    cycles, steps := PlayAll(tc, pool, w, times);
  }

  function InTurn(r: Ref, s: Ref, n: nat): (path: seq<Ref>)
    ensures |path| == n && forall i :: 0 <= i < n ==> path[i] == if i % 2 == 0 then r else s
  {
    seq(n, i => if i % 2 == 0 then r else s)
  }

  lemma RivalsChase(tc: TextCodec, adds: map<Ref, Additions>, r: Ref, s: Ref, n: nat)
    requires Displaces(tc, adds, r, s) && Displaces(tc, adds, s, r)
    ensures Chased(tc, adds, InTurn(r, s, n))
  {
    var path := InTurn(r, s, n);
    forall i | 0 < i < n ensures Displaces(tc, adds, path[i - 1], path[i]) {
      assert i % 2 == 0 <==> (i - 1) % 2 == 1;
    }
  }

  /** Two items that displace each other are broadcast in turn, as often as one likes. */
  lemma RivalsRunForever(tc: TextCodec, pool: Pool, r: Ref, s: Ref, n: nat) returns (cycles: seq<Cycle>, steps: seq<Step>)
    requires Displaces(tc, AdditionsOf(tc, pool), r, s) && Displaces(tc, AdditionsOf(tc, pool), s, r)
    ensures ServedRun(tc, pool, map[], cycles, steps) && |steps| == n
    ensures forall i :: 0 <= i < n ==> WritesOnly(steps[i], Candidate(InTurn(r, s, n)[i], AdditionsOf(tc, pool)[InTurn(r, s, n)[i]]))
  {
    RivalsChase(tc, AdditionsOf(tc, pool), r, s, n);
    cycles, steps := PlayPath(tc, pool, InTurn(r, s, n));
  }

  // ---- two special pools ----

  /** With disjoint keys nothing is displaced, so payloads alone decide. */
  lemma DisjointPoolsExactly(tc: TextCodec, pool: Pool)
    requires RecordsFit(tc, pool) && DisjointPool(AdditionsOf(tc, pool))
    ensures ReplaySafe(tc, pool) <==> NoneSynthesized(pool)
  {
    var adds := AdditionsOf(tc, pool);
    ReplaySafetyExactly(tc, pool);
    SteadyExactly(tc, pool);
    PoolKeys(tc, pool);
    forall path | |path| >= 2 ensures !Circle(tc, adds, path) {
      DisjointNeverDisplace(tc, adds, path[0], path[1]);
    }
  }

  lemma DisjointNeverDisplace(tc: TextCodec, adds: map<Ref, Additions>, s: Ref, r: Ref)
    requires DisjointPool(adds) && OneKeyEach(adds)
    ensures !Displaces(tc, adds, s, r)
  {
    if s in adds && r in adds && s.itemType == r.itemType {
      assert KeyOf(r.itemType) in adds[s].Keys && KeyOf(r.itemType) in adds[r].Keys;
      assert s == r;
    }
  }

  /** Two items that share a key, with additions that do not change: safe exactly if not each displaces the other. */
  lemma TwoItemsExactly(tc: TextCodec, pool: Pool, r: Ref, s: Ref)
    requires Steady(tc, pool) && r != s && AdditionsOf(tc, pool).Keys == {r, s} && r.itemType == s.itemType
    ensures ReplaySafe(tc, pool) <==> !(Displaces(tc, AdditionsOf(tc, pool), r, s) && Displaces(tc, AdditionsOf(tc, pool), s, r))
  {
    var adds := AdditionsOf(tc, pool);
    ReplaySafetyExactly(tc, pool);
    if Displaces(tc, adds, r, s) && Displaces(tc, adds, s, r) {
      assert Circle(tc, adds, [r, s, r]);
    }
    forall path | Circle(tc, adds, path) ensures Displaces(tc, adds, r, s) && Displaces(tc, adds, s, r) {
      CircleOfTwo(tc, adds, r, s, path);
    }
  }

  lemma CircleOfTwo(tc: TextCodec, adds: map<Ref, Additions>, r: Ref, s: Ref, path: seq<Ref>)
    requires adds.Keys == {r, s} && Circle(tc, adds, path)
    ensures Displaces(tc, adds, r, s) && Displaces(tc, adds, s, r)
  {
    assert Displaces(tc, adds, path[0], path[1]);
    assert path[0] != path[1];
    assert Displaces(tc, adds, path[1], path[2]);
    assert path[1] != path[2];
  }

  /** For reviews, displacing means: different values, and the job the one reviews is not among the
      jobs of the other. */
  lemma ReviewsDisplace(tc: TextCodec, adds: map<Ref, Additions>, r: Ref, s: Ref)
    requires r in adds && s in adds && r.itemType == Review && s.itemType == Review
    requires adds[r].Keys == {ReviewRecord} && adds[s].Keys == {ReviewRecord}
    ensures Displaces(tc, adds, s, r) <==>
      adds[r][ReviewRecord] != adds[s][ReviewRecord] && !SameReview(tc, adds[r][ReviewRecord], adds[s][ReviewRecord])
  {
    assert ReviewRecord in adds[r] && ReviewRecord in adds[s];
  }
}
