/** Repeated acceptInboxBatch cycles against one identity. */
module InboxRuns {
  import opened Prelude
  import opened Vdxf
  import opened VdxfGate
  import opened IdentityUpdate
  import opened InboxBatch
  import opened InboxGuarantees

  /** One polling cycle: its surroundings, the items handed in and the size budget. */
  datatype Cycle = Cycle(env: Env, items: seq<Ref>, maxBytes: nat)

  /** What a cycle does to the identity: the items it newly writes, in one update. */
  datatype Step = Step(carried: seq<Candidate>, sent: Option<Additions>)

  /** The broadcast of a normal return is applied to the chain; a call that threw wrote nothing. */
  ghost function StepOf(c: Cycle): Step {
    match Batch(c.env, c.items, c.maxBytes)
    case Returned(_, broadcasts, _, carried) => Step(carried, if broadcasts == [] then None else Some(broadcasts[0]))
    case Threw(_, _) => Step([], None)
  }

  function ContentAfter(initial: ContentMap, steps: seq<Step>): ContentMap {
    if steps == [] then initial
    else
      var content := ContentAfter(initial, steps[..|steps| - 1]);
      match steps[|steps| - 1].sent
      case Some(sent) => Apply(content, sent)
      case None => content
  }

  /** Cycle c reads the chain as it stands. */
  predicate Reads(content: ContentMap, c: Cycle) { c.env.chain.Some? ==> c.env.chain.value.content == content }

  /** Cycle i reads what the cycles before it left on-chain, and step i is what it does. */
  ghost predicate Follows(initial: ContentMap, cycles: seq<Cycle>, steps: seq<Step>, i: nat)
    requires i < |cycles| == |steps|
  {
    steps[i] == StepOf(cycles[i]) && Reads(ContentAfter(initial, steps[..i]), cycles[i])
  }

  ghost predicate IsRun(initial: ContentMap, cycles: seq<Cycle>, steps: seq<Step>) {
    |cycles| == |steps| && forall i :: 0 <= i < |cycles| ==> Follows(initial, cycles, steps, i)
  }

  /** The step newly writes the item. */
  predicate Carries(s: Step, ref: Ref) { exists d :: d in s.carried && d.ref == ref }

  // ---- frame ----

  predicate InboxKey(k: Key) { k == ReviewRecord || k == ReviewAttestation || k == JobRecord }

  predicate WritesInboxKeysOnly(s: Step) { s.sent.Some? ==> forall k :: k in s.sent.value ==> InboxKey(k) }

  lemma CyclesWriteInboxKeysOnly(c: Cycle)
    ensures WritesInboxKeysOnly(StepOf(c))
  {
    if StepOf(c).sent.Some? { BroadcastKeysAreAllowed(c.env, c.items, c.maxBytes); }
  }

  lemma {:induction false} FrameOfSteps(initial: ContentMap, steps: seq<Step>, k: Key)
    requires forall s :: s in steps ==> WritesInboxKeysOnly(s)
    requires !InboxKey(k)
    ensures var final := ContentAfter(initial, steps);
      && (k in final ==> k in initial && AsArray(final[k]) == AsArray(initial[k]))
      && (k in initial && k != MultimapRemove ==> k in final)
  {
    if steps != [] {
      var before, s := steps[..|steps| - 1], steps[|steps| - 1];
      assert s in steps && forall t :: t in before ==> t in steps;
      FrameOfSteps(initial, before, k);
      if s.sent.Some? { UpdateFrame(ContentAfter(initial, before), s.sent.value, k); }
    }
  }

  /** No run of batches touches another key of the identity; at most a removal instruction is
      dropped on the way. */
  lemma RunsTouchInboxKeysOnly(initial: ContentMap, cycles: seq<Cycle>, steps: seq<Step>, k: Key)
    requires IsRun(initial, cycles, steps) && !InboxKey(k)
    ensures var final := ContentAfter(initial, steps);
      && (k in final ==> k in initial && AsArray(final[k]) == AsArray(initial[k]))
      && (k in initial && k != MultimapRemove ==> k in final)
  {
    forall s | s in steps ensures WritesInboxKeysOnly(s) {
      var i :| 0 <= i < |steps| && steps[i] == s;
      assert Follows(initial, cycles, steps, i);
      CyclesWriteInboxKeysOnly(cycles[i]);
    }
    FrameOfSteps(initial, steps, k);
  }

  // ---- replay safety ----

  /** The pending items of an inbox and their stored details. */
  type Pool = map<Ref, InboxItem>

  predicate HasPayload(item: InboxItem) { item.vdxfData.Keys != {} }

  predicate TypeMatches(ref: Ref, item: InboxItem) { item.itemType.None? || item.itemType.value == ref.itemType }

  /** A job record without a payload, the case the gate fills in itself; the additions of any other
      item do not depend on when they are built. */
  predicate Synthesizes(ref: Ref, item: InboxItem) {
    ref.itemType == JobRecordItem && !HasPayload(item) && TypeMatches(ref, item)
  }

  ghost predicate NoneSynthesized(pool: Pool) { forall r :: r in pool ==> !Synthesizes(r, pool[r]) }

  /** What an item adds when it passes its gate at that time. */
  function PassedAt(tc: TextCodec, ref: Ref, item: InboxItem, now: nat): Option<Additions> {
    if !TypeMatches(ref, item) then None
    else
      match GatedAdditions(tc, ref.itemType, item, now)
      case Err(_) => None
      case Ok(a) => if ValueSizesOk(tc, a) then Some(a) else None
  }

  ghost predicate Passes(tc: TextCodec, ref: Ref, item: InboxItem) { exists t: nat :: PassedAt(tc, ref, item, t).Some? }

  /** Some time at which the item passes its gate. */
  ghost function TimeOf(tc: TextCodec, ref: Ref, item: InboxItem): nat
    requires Passes(tc, ref, item)
  {
    var t: nat :| PassedAt(tc, ref, item, t).Some?; t
  }

  /** What an item of the pool adds does not depend on the second it is built in. */
  ghost predicate Steady(tc: TextCodec, pool: Pool) {
    forall r, t, u :: r in pool && PassedAt(tc, r, pool[r], t).Some? && PassedAt(tc, r, pool[r], u).Some? ==>
      PassedAt(tc, r, pool[r], t) == PassedAt(tc, r, pool[r], u)
  }

  /** What each item of the pool adds; items that never pass their gate are left out. */
  ghost function AdditionsOf(tc: TextCodec, pool: Pool): map<Ref, Additions> {
    map r | r in pool && Passes(tc, r, pool[r]) :: PassedAt(tc, r, pool[r], TimeOf(tc, r, pool[r])).value
  }

  /** No two pending items write the same key. */
  ghost predicate DisjointPool(adds: map<Ref, Additions>) {
    forall r, s :: r in adds && s in adds && r != s ==> adds[r].Keys !! adds[s].Keys
  }

  ghost predicate InboxKeysOnly(adds: map<Ref, Additions>) {
    forall r, k :: r in adds && k in adds[r] ==> InboxKey(k)
  }

  /** The backend serves the pool: a fetch may fail or find the item no longer pending, but an
      item's content never changes, and no cycle is handed an id twice. */
  ghost predicate Serves(tc: TextCodec, pool: Pool, c: Cycle) {
    c.env.tc == tc && DistinctIds(c.items) && forall ref :: ref in c.items ==>
      ref in pool && (c.env.fetch(ref.id).Item? ==>
        c.env.fetch(ref.id).item == pool[ref].(pending := c.env.fetch(ref.id).item.pending))
  }

  /** The step sends exactly the additions of the pool items it carries. */
  ghost predicate Sends(adds: map<Ref, Additions>, s: Step) {
    && (s.sent.Some? <==> s.carried != [])
    && (forall d :: d in s.carried ==> d.ref in adds && d.additions == adds[d.ref])
    && (forall d, k :: d in s.carried && k in d.additions ==> k in s.sent.value && s.sent.value[k] == d.additions[k])
    && (s.sent.Some? ==> forall k :: k in s.sent.value ==> exists d :: d in s.carried && k in d.additions)
  }

  /** Nothing the step carries was on-chain already. */
  ghost predicate Novel(tc: TextCodec, content: ContentMap, s: Step) {
    forall d :: d in s.carried ==> !AlreadyPresent(tc, content, d.additions)
  }

  /** Only synthesized records change with time. */
  lemma PayloadsAreSteady(tc: TextCodec, pool: Pool)
    requires NoneSynthesized(pool)
    ensures Steady(tc, pool)
  {
    forall r, t, u | r in pool && PassedAt(tc, r, pool[r], t).Some? && PassedAt(tc, r, pool[r], u).Some?
      ensures PassedAt(tc, r, pool[r], t) == PassedAt(tc, r, pool[r], u)
    {
      assert !Synthesizes(r, pool[r]);
    }
  }

  lemma SameGate(tc: TextCodec, ref: Ref, a: InboxItem, b: InboxItem, now: nat)
    requires b == a.(pending := b.pending)
    ensures PassedAt(tc, ref, b, now) == PassedAt(tc, ref, a, now)
  {}

  lemma GatedPoolItem(tc: TextCodec, pool: Pool, c: Cycle, d: Candidate)
    requires Serves(tc, pool, c) && Steady(tc, pool) && Gate(c.env, c.items, d)
    ensures d.ref in AdditionsOf(tc, pool) && AdditionsOf(tc, pool)[d.ref] == d.additions
  {
    SameGate(tc, d.ref, pool[d.ref], c.env.fetch(d.ref.id).item, c.env.now);
    assert PassedAt(tc, d.ref, pool[d.ref], c.env.now) == Some(d.additions);
  }

  lemma UnionIsSent(adds: map<Ref, Additions>, s: Step)
    requires s.sent == (if s.carried == [] then None else Some(Union(s.carried))) && KeysDisjoint(s.carried)
    requires forall d :: d in s.carried ==> d.ref in adds && d.additions == adds[d.ref]
    ensures Sends(adds, s)
  {
    UnionHoldsEach(s.carried);
  }

  lemma CyclesAreFaithful(tc: TextCodec, pool: Pool, content: ContentMap, c: Cycle)
    requires Reads(content, c) && Serves(tc, pool, c) && Steady(tc, pool)
    ensures Sends(AdditionsOf(tc, pool), StepOf(c)) && Novel(tc, content, StepOf(c))
  {
    OneDisjointBroadcast(c.env, c.items, c.maxBytes);
    var s := StepOf(c);
    if s.carried != [] {
      WrittenItemsAreGated(c.env, c.items, c.maxBytes);
      forall d | d in s.carried ensures d.ref in AdditionsOf(tc, pool) && d.additions == AdditionsOf(tc, pool)[d.ref] {
        GatedPoolItem(tc, pool, c, d);
      }
    }
    UnionIsSent(AdditionsOf(tc, pool), s);
  }

  lemma PoolWritesInboxKeys(tc: TextCodec, pool: Pool)
    ensures InboxKeysOnly(AdditionsOf(tc, pool))
  {
    forall r, k | r in AdditionsOf(tc, pool) && k in AdditionsOf(tc, pool)[r] ensures InboxKey(k) {
      GateIsTight(tc, r.itemType, pool[r], TimeOf(tc, r, pool[r]));
    }
  }

  /** All of an item's values are on-chain. */
  predicate Stands(content: ContentMap, a: Additions) {
    forall k :: k in a ==> k in content && content[k] == Arr(a[k])
  }

  lemma StandingIsPresent(tc: TextCodec, content: ContentMap, a: Additions)
    requires Stands(content, a)
    ensures AlreadyPresent(tc, content, a)
  {}

  lemma CarriedKeyIsShown(adds: map<Ref, Additions>, content: ContentMap, s: Step, ref: Ref, k: Key)
    requires Sends(adds, s) && s.sent.Some? && Carries(s, ref) && ref in adds && k in adds[ref]
    ensures k in Apply(content, s.sent.value) && Apply(content, s.sent.value)[k] == Arr(adds[ref][k])
  {
    var d :| d in s.carried && d.ref == ref;
    assert k in d.additions;
    UpdateFrame(content, s.sent.value, k);
  }

  lemma SentKeysAreCarried(adds: map<Ref, Additions>, s: Step, ref: Ref, k: Key)
    requires Sends(adds, s) && s.sent.Some? && DisjointPool(adds) && ref in adds && k in adds[ref]
    ensures k in s.sent.value ==> Carries(s, ref)
  {
    if k in s.sent.value {
      var d :| d in s.carried && k in d.additions;
      assert k in adds[d.ref].Keys && k in adds[ref].Keys;
    }
  }

  lemma OwnKeyIsUntouched(adds: map<Ref, Additions>, content: ContentMap, s: Step, ref: Ref, k: Key)
    requires Sends(adds, s) && s.sent.Some? && DisjointPool(adds) && InboxKeysOnly(adds) && ref in adds && k in adds[ref]
    requires !Carries(s, ref) && k in content && content[k] == Arr(adds[ref][k])
    ensures k in Apply(content, s.sent.value) && Apply(content, s.sent.value)[k] == Arr(adds[ref][k])
  {
    assert InboxKey(k);
    SentKeysAreCarried(adds, s, ref, k);
    UpdateFrame(content, s.sent.value, k);
  }

  lemma StepStands(adds: map<Ref, Additions>, content: ContentMap, s: Step, ref: Ref)
    requires Sends(adds, s) && DisjointPool(adds) && InboxKeysOnly(adds) && ref in adds && s.sent.Some?
    requires Stands(content, adds[ref]) || Carries(s, ref)
    ensures Stands(Apply(content, s.sent.value), adds[ref])
  {
    forall k | k in adds[ref] ensures k in Apply(content, s.sent.value) && Apply(content, s.sent.value)[k] == Arr(adds[ref][k]) {
      if Carries(s, ref) {
        CarriedKeyIsShown(adds, content, s, ref, k);
      } else {
        OwnKeyIsUntouched(adds, content, s, ref, k);
      }
    }
  }

  /** Once carried, an item stands on-chain for the rest of the run. */
  lemma {:induction false} CarriedItemsStand(adds: map<Ref, Additions>, initial: ContentMap, steps: seq<Step>, i: nat, ref: Ref)
    requires DisjointPool(adds) && InboxKeysOnly(adds) && ref in adds
    requires forall s :: s in steps ==> Sends(adds, s)
    requires i < |steps| && Carries(steps[i], ref)
    ensures Stands(ContentAfter(initial, steps), adds[ref])
  {
    var before, s := steps[..|steps| - 1], steps[|steps| - 1];
    assert s in steps && forall t :: t in before ==> t in steps;
    if i < |before| { CarriedItemsStand(adds, initial, before, i, ref); }
    if s.sent.Some? { StepStands(adds, ContentAfter(initial, before), s, ref); }
  }

  /** Replay safety: with disjoint keys and additions that do not change with time, however many cycles run and whatever
      their acks answer, no item is in two broadcasts. */
  lemma EachItemIsBroadcastOnce(tc: TextCodec, pool: Pool, initial: ContentMap, cycles: seq<Cycle>, steps: seq<Step>,
                                i: nat, j: nat, ref: Ref)
    requires IsRun(initial, cycles, steps) && DisjointPool(AdditionsOf(tc, pool)) && Steady(tc, pool)
    requires forall n :: 0 <= n < |cycles| ==> Serves(tc, pool, cycles[n])
    requires i < j < |steps|
    ensures !(Carries(steps[i], ref) && Carries(steps[j], ref))
  {
    forall n | 0 <= n < |steps|
      ensures Sends(AdditionsOf(tc, pool), steps[n]) && Novel(tc, ContentAfter(initial, steps[..n]), steps[n])
    {
      assert Follows(initial, cycles, steps, n);
      CyclesAreFaithful(tc, pool, ContentAfter(initial, steps[..n]), cycles[n]);
    }
    if Carries(steps[i], ref) && Carries(steps[j], ref) {
      var d :| d in steps[j].carried && d.ref == ref;
      PoolWritesInboxKeys(tc, pool);
      CarriedItemsStand(AdditionsOf(tc, pool), initial, steps[..j], i, ref);
      StandingIsPresent(tc, ContentAfter(initial, steps[..j]), d.additions);
    }
  }
}
