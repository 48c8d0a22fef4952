/** What one call of acceptInboxBatch guarantees. */
module InboxGuarantees {
  import opened Prelude
  import opened Vdxf
  import opened VdxfGate
  import opened InboxBatch

  // ---- every item has one fate ----

  /** How many entries of a list carry id x. */
  function Count<T>(id: T -> string, s: seq<T>, x: string): nat {
    if s == [] then 0 else Count(id, s[..|s| - 1], x) + if id(s[|s| - 1]) == x then 1 else 0
  }

  function RefId(r: Ref): string { r.id }
  function CandidateId(c: Candidate): string { c.ref.id }
  function RejectionId(r: Rejection): string { r.ref.id }
  function DeferralId(d: Deferral): string { d.ref.id }
  function Self(id: string): string { id }

  ghost predicate NoRepeats<T>(id: T -> string, s: seq<T>) { forall x :: Count(id, s, x) <= 1 }

  /** The items of a type the gate supports; any other is never a candidate. */
  function Supported(items: seq<Ref>): seq<Ref> {
    if items == [] then []
    else
      var earlier, r := Supported(items[..|items| - 1]), items[|items| - 1];
      if r.itemType.Unsupported? then earlier else earlier + [r]
  }

  lemma SupportedPush(items: seq<Ref>, r: Ref)
    ensures Supported(items + [r]) == if r.itemType.Unsupported? then Supported(items) else Supported(items) + [r]
  {
    assert (items + [r])[..|items|] == items;
  }

  lemma OneItemIsDistinct(r: Ref)
    ensures DistinctIds([r])
  {
    SupportedPush([], r);
    assert [] + [r] == [r];
    forall x ensures Count(RefId, [r], x) <= 1 { CountPush(RefId, [], r, x); }
  }

  /** No id is repeated among the items the gate supports. */
  ghost predicate DistinctIds(items: seq<Ref>) { NoRepeats(RefId, Supported(items)) }

  lemma CountPush<T>(id: T -> string, s: seq<T>, e: T, x: string)
    ensures Count(id, s + [e], x) == Count(id, s, x) + if id(e) == x then 1 else 0
  {
    assert (s + [e])[..|s|] == s;
  }

  lemma {:induction false} CountAppend<T>(id: T -> string, a: seq<T>, b: seq<T>, x: string)
    ensures Count(id, a + b, x) == Count(id, a, x) + Count(id, b, x)
  {
    if b == [] {
      assert a + b == a;
    } else {
      assert (a + b)[..|a + b| - 1] == a + b[..|b| - 1];
      CountAppend(id, a, b[..|b| - 1], x);
    }
  }

  lemma {:induction false} CountMember<T>(id: T -> string, s: seq<T>, e: T)
    requires e in s
    ensures Count(id, s, id(e)) >= 1
  {
    if e != s[|s| - 1] { CountMember(id, s[..|s| - 1], e); }
  }

  function GatedCount(g: Gated, x: string): nat {
    Count(CandidateId, g.candidates, x) + Count(RejectionId, g.rejected, x)
    + Count(DeferralId, g.deferred, x) + Count(Self, g.alreadyDone, x)
  }

  lemma GateItemCount(env: Env, g: Gated, ref: Ref, x: string)
    ensures GatedCount(GateItem(env, g, ref), x) == GatedCount(g, x) + if ref.id == x then 1 else 0
  {
    var h := GateItem(env, g, ref);
    if h.candidates != g.candidates { CountPush(CandidateId, g.candidates, h.candidates[|g.candidates|], x); }
    if h.rejected != g.rejected { CountPush(RejectionId, g.rejected, h.rejected[|g.rejected|], x); }
    if h.deferred != g.deferred { CountPush(DeferralId, g.deferred, h.deferred[|g.deferred|], x); }
    CountPush(Self, g.alreadyDone, ref.id, x);
  }

  lemma {:induction false} GatePartition(env: Env, items: seq<Ref>, x: string)
    ensures GatedCount(GateAll(env, items), x) == Count(RefId, items, x)
  {
    if items != [] {
      GatePartition(env, items[..|items| - 1], x);
      GateItemCount(env, GateAll(env, items[..|items| - 1]), items[|items| - 1], x);
    }
  }

  function MergeCount(m: Merge, x: string): nat {
    Count(CandidateId, m.chosen, x) + Count(CandidateId, m.present, x) + Count(DeferralId, m.deferred, x)
  }

  /** What one merge step does: the candidate is found on-chain, put off or chosen. */
  ghost predicate MergeStep(tc: TextCodec, maxBytes: nat, m: Merge, c: Candidate, n: Merge) {
    || n == m.(present := m.present + [c])
    || n == m.(deferred := m.deferred + [Deferral(c.ref, KeyCollision)])
    || n == m.(deferred := m.deferred + [Deferral(c.ref, SizeBudget)])
    || (&& m.merged.Keys !! c.additions.Keys && m.bytes + AdditionsSize(tc, c.additions) <= maxBytes
        && n == m.(merged := m.merged + c.additions, chosen := m.chosen + [c], bytes := m.bytes + AdditionsSize(tc, c.additions)))
  }

  lemma NoCommonKey(a: set<Key>, b: set<Key>)
    ensures b * a == {} <==> a !! b
  {
    forall k | k in a ensures k in b <==> k in b * a {}
  }

  lemma MergeItemSteps(tc: TextCodec, chain: ContentMap, maxBytes: nat, m: Merge, c: Candidate)
    ensures MergeStep(tc, maxBytes, m, c, MergeItem(tc, chain, maxBytes, m, c))
  {
    NoCommonKey(m.merged.Keys, c.additions.Keys);
  }

  lemma MergeStepCount(tc: TextCodec, maxBytes: nat, m: Merge, c: Candidate, n: Merge, x: string)
    requires MergeStep(tc, maxBytes, m, c, n)
    ensures MergeCount(n, x) == MergeCount(m, x) + if c.ref.id == x then 1 else 0
  {
    CountPush(CandidateId, m.chosen, c, x);
    CountPush(CandidateId, m.present, c, x);
    CountPush(DeferralId, m.deferred, Deferral(c.ref, KeyCollision), x);
    CountPush(DeferralId, m.deferred, Deferral(c.ref, SizeBudget), x);
  }

  lemma {:induction false} MergePartition(tc: TextCodec, chain: ContentMap, maxBytes: nat, cs: seq<Candidate>, x: string)
    ensures MergeCount(MergeAll(tc, chain, maxBytes, cs), x) == Count(CandidateId, cs, x)
  {
    if cs != [] {
      var before := cs[..|cs| - 1];
      MergePartition(tc, chain, maxBytes, before, x);
      var m := MergeAll(tc, chain, maxBytes, before);
      MergeItemSteps(tc, chain, maxBytes, m, cs[|cs| - 1]);
      MergeStepCount(tc, maxBytes, m, cs[|cs| - 1], MergeAll(tc, chain, maxBytes, cs), x);
    }
  }

  lemma {:induction false} BisectPartition(build: Additions -> bool, cs: seq<Candidate>, x: string)
    ensures var b := Bisect(build, cs);
      Count(CandidateId, b.survivors, x) + Count(RejectionId, b.blamed, x) == Count(CandidateId, cs, x)
  {
    if cs != [] {
      var before, c := cs[..|cs| - 1], cs[|cs| - 1];
      BisectPartition(build, before, x);
      var b := Bisect(build, before);
      CountPush(CandidateId, b.survivors, c, x);
      CountPush(RejectionId, b.blamed, Rejection(c.ref, BuildFailed), x);
    }
  }

  lemma {:induction false} PostponedCount(cs: seq<Candidate>, x: string)
    ensures Count(DeferralId, Postponed(cs), x) == Count(CandidateId, cs, x)
  {
    if cs != [] {
      PostponedCount(cs[..|cs| - 1], x);
      CountPush(DeferralId, Postponed(cs[..|cs| - 1]), Deferral(cs[|cs| - 1].ref, RebuildFailed), x);
    }
  }

  lemma {:induction false} RefsCount(cs: seq<Candidate>, x: string)
    ensures Count(RefId, Refs(cs), x) == Count(CandidateId, cs, x)
  {
    if cs != [] {
      RefsCount(cs[..|cs| - 1], x);
      CountPush(RefId, Refs(cs[..|cs| - 1]), cs[|cs| - 1].ref, x);
    }
  }

  /** Every written item is acked or not, as its own reply says. */
  lemma {:induction false} AckPartition(ack: string -> AckReply, written: seq<Ref>, x: string)
    ensures var (acked, failed) := AckAll(ack, written);
      && Count(Self, acked, x) == (if ack(x) == AckError then 0 else Count(RefId, written, x))
      && Count(Self, failed, x) == (if ack(x) == AckError then Count(RefId, written, x) else 0)
  {
    if written != [] {
      var before, id := written[..|written| - 1], written[|written| - 1].id;
      AckPartition(ack, before, x);
      var (acked, failed) := AckAll(ack, before);
      CountPush(Self, acked, id, x);
      CountPush(Self, failed, id, x);
    }
  }

  lemma {:induction false} PickedIgnoresStrangers(cs: seq<Candidate>, ids: set<string>, x: string)
    requires Count(CandidateId, cs, x) == 0
    ensures Picked(cs, ids + {x}) == Picked(cs, ids)
  {
    if cs != [] { PickedIgnoresStrangers(cs[..|cs| - 1], ids, x); }
  }

  lemma StrangerToChosen(tc: TextCodec, chain: ContentMap, maxBytes: nat, cs: seq<Candidate>, x: string)
    requires Count(CandidateId, cs, x) == 0
    ensures x !in IdsOf(MergeAll(tc, chain, maxBytes, cs).chosen)
  {
    MergePartition(tc, chain, maxBytes, cs, x);
    var chosen := MergeAll(tc, chain, maxBytes, cs).chosen;
    forall d | d in chosen ensures d.ref.id != x { CountMember(CandidateId, chosen, d); }
  }

  /** Without repeated ids, bisecting by id visits exactly the merged candidates. */
  lemma {:induction false} PickedAreChosen(tc: TextCodec, chain: ContentMap, maxBytes: nat, cs: seq<Candidate>)
    requires NoRepeats(CandidateId, cs)
    ensures var chosen := MergeAll(tc, chain, maxBytes, cs).chosen;
      Picked(cs, IdsOf(chosen)) == chosen
  {
    if cs != [] {
      var before, c := cs[..|cs| - 1], cs[|cs| - 1];
      forall x ensures Count(CandidateId, before, x) <= 1 { assert Count(CandidateId, cs, x) <= 1; }
      assert Count(CandidateId, cs, c.ref.id) <= 1;
      PickedAreChosen(tc, chain, maxBytes, before);
      StrangerToChosen(tc, chain, maxBytes, before, c.ref.id);
      var chosen, next := MergeAll(tc, chain, maxBytes, before).chosen, MergeAll(tc, chain, maxBytes, cs).chosen;
      if next != chosen {
        assert next == chosen + [c];
        assert IdsOf(next) == IdsOf(chosen) + {c.ref.id};
        PickedIgnoresStrangers(before, IdsOf(chosen), c.ref.id);
      }
    }
  }

  /** The plan carries all chosen candidates, or what bisection made of them. */
  predicate PlanSplits(p: Plan, chosen: seq<Candidate>, b: Bisection) {
    p.Plan? &&
    (|| (p.carried == chosen && p.rejected == [] && p.deferred == [])
     || (p.carried == b.survivors && p.rejected == b.blamed && p.deferred == [])
     || (p.carried == [] && p.rejected == b.blamed && p.deferred == Postponed(b.survivors)))
  }

  lemma PlanIsSplit(env: Env, hasUtxos: bool, cs: seq<Candidate>, merged: Additions, chosen: seq<Candidate>)
    requires Picked(cs, IdsOf(chosen)) == chosen
    requires PlanWrite(env, hasUtxos, cs, merged, chosen).Plan?
    ensures PlanSplits(PlanWrite(env, hasUtxos, cs, merged, chosen), chosen, Bisect(env.build, chosen))
  {
  }

  lemma PlanPartition(env: Env, hasUtxos: bool, cs: seq<Candidate>, merged: Additions, chosen: seq<Candidate>, x: string)
    requires Picked(cs, IdsOf(chosen)) == chosen
    requires PlanWrite(env, hasUtxos, cs, merged, chosen).Plan?
    ensures var p := PlanWrite(env, hasUtxos, cs, merged, chosen);
      Count(CandidateId, p.carried, x) + Count(RejectionId, p.rejected, x) + Count(DeferralId, p.deferred, x)
      == Count(CandidateId, chosen, x)
  {
    PlanIsSplit(env, hasUtxos, cs, merged, chosen);
    SplitPartition(PlanWrite(env, hasUtxos, cs, merged, chosen), chosen, env.build, x);
  }

  lemma SplitPartition(p: Plan, chosen: seq<Candidate>, build: Additions -> bool, x: string)
    requires PlanSplits(p, chosen, Bisect(build, chosen))
    ensures Count(CandidateId, p.carried, x) + Count(RejectionId, p.rejected, x) + Count(DeferralId, p.deferred, x)
      == Count(CandidateId, chosen, x)
  {
    BisectPartition(build, chosen, x);
    PostponedCount(Bisect(build, chosen).survivors, x);
  }

  lemma ConcludePartition(env: Env, g: Gated, m: Merge, p: Plan, x: string)
    requires p.Plan? && Conclude(env, g, m.present, m.deferred, p).Returned?
    ensures var r := Conclude(env, g, m.present, m.deferred, p).result;
      && Count(RefId, r.written, x) == Count(CandidateId, m.present, x) + Count(CandidateId, p.carried, x)
      && Count(RejectionId, r.rejected, x) == Count(RejectionId, g.rejected, x) + Count(RejectionId, p.rejected, x)
      && Count(DeferralId, r.deferred, x) ==
           Count(DeferralId, g.deferred, x) + Count(DeferralId, m.deferred, x) + Count(DeferralId, p.deferred, x)
      && Count(Self, r.acked, x) + Count(Self, r.ackFailed, x) == Count(RefId, r.written, x)
  {
    RefsCount(m.present, x);
    RefsCount(p.carried, x);
    CountAppend(RefId, Refs(m.present), Refs(p.carried), x);
    CountAppend(RejectionId, g.rejected, p.rejected, x);
    CountAppend(DeferralId, g.deferred, m.deferred, x);
    CountAppend(DeferralId, g.deferred + m.deferred, p.deferred, x);
    AckPartition(env.ack, Refs(m.present) + Refs(p.carried), x);
  }

  lemma {:induction false} CandidatesAreSupported(env: Env, items: seq<Ref>, x: string)
    ensures Count(CandidateId, GateAll(env, items).candidates, x) <= Count(RefId, Supported(items), x)
  {
    if items != [] {
      var before, ref := items[..|items| - 1], items[|items| - 1];
      CandidatesAreSupported(env, before, x);
      CountPush(RefId, Supported(before), ref, x);
      var g, h := GateAll(env, before), GateAll(env, items);
      if h.candidates != g.candidates {
        var c := h.candidates[|g.candidates|];
        assert h.candidates == g.candidates + [c] && c.ref == ref && !ref.itemType.Unsupported?;
        CountPush(CandidateId, g.candidates, c, x);
      }
    }
  }

  lemma CandidatesDoNotRepeat(env: Env, items: seq<Ref>)
    requires DistinctIds(items)
    ensures NoRepeats(CandidateId, GateAll(env, items).candidates)
  {
    forall x ensures Count(CandidateId, GateAll(env, items).candidates, x) <= 1 {
      CandidatesAreSupported(env, items, x);
      assert Count(RefId, Supported(items), x) <= 1;
    }
  }

  /** How often a result mentions id x, in its four buckets together. */
  function Fates(r: BatchResult, x: string): nat {
    Count(RefId, r.written, x) + Count(RejectionId, r.rejected, x)
    + Count(DeferralId, r.deferred, x) + Count(Self, r.alreadyDone, x)
  }

  /** On every normal return each item of the batch is written, rejected, deferred or already
      done, in exactly one of the four, and nothing else is; the written ones split into acked
      and not acked. */
  lemma EveryItemHasOneFate(env: Env, items: seq<Ref>, maxBytes: nat, x: string)
    requires DistinctIds(items)
    requires Batch(env, items, maxBytes).Returned?
    ensures var r := Batch(env, items, maxBytes).result;
      && Fates(r, x) == Count(RefId, items, x)
      && Count(Self, r.acked, x) + Count(Self, r.ackFailed, x) == Count(RefId, r.written, x)
  {
    var g := GateAll(env, items);
    GatePartition(env, items, x);
    if items != [] && g.candidates != [] {
      var chain := env.chain.value;
      var m := MergeAll(env.tc, chain.content, maxBytes, g.candidates);
      CandidatesDoNotRepeat(env, items);
      PickedAreChosen(env.tc, chain.content, maxBytes, g.candidates);
      PlanPartition(env, chain.hasUtxos, g.candidates, m.merged, m.chosen, x);
      MergePartition(env.tc, chain.content, maxBytes, g.candidates, x);
      ConcludePartition(env, g, m, PlanWrite(env, chain.hasUtxos, g.candidates, m.merged, m.chosen), x);
    }
  }

  // ---- what is broadcast ----

  /** Item c of the batch passed its own gate with these additions. */
  ghost predicate Gate(env: Env, items: seq<Ref>, c: Candidate) {
    && c.ref in items
    && env.fetch(c.ref.id).Item?
    && var detail := env.fetch(c.ref.id).item;
      && detail.pending
      && (detail.itemType.None? || detail.itemType.value == c.ref.itemType)
      && GatedAdditions(env.tc, c.ref.itemType, detail, env.now) == Ok(c.additions)
      && ValueSizesOk(env.tc, c.additions)
  }

  /** The candidates are exactly the items that pass their gate. */
  lemma {:induction false} CandidatesAreTheGated(env: Env, items: seq<Ref>, c: Candidate)
    ensures c in GateAll(env, items).candidates <==> Gate(env, items, c)
  {
    if items != [] {
      var before, ref := items[..|items| - 1], items[|items| - 1];
      CandidatesAreTheGated(env, before, c);
      assert c.ref in items <==> c.ref in before || c.ref == ref;
      var g, h := GateAll(env, before), GateAll(env, items);
      if h.candidates != g.candidates {
        assert h.candidates == g.candidates + [h.candidates[|g.candidates|]];
      }
      assert Gate(env, items, c) <==> Gate(env, before, c) || (c.ref == ref && Gate(env, [ref], c));
    }
  }

  /** The additions of a list of candidates, later ones on top. */
  function Union(cs: seq<Candidate>): Additions {
    if cs == [] then map[] else Union(cs[..|cs| - 1]) + cs[|cs| - 1].additions
  }

  predicate KeysDisjoint(cs: seq<Candidate>) {
    cs == [] || (KeysDisjoint(cs[..|cs| - 1]) && Union(cs[..|cs| - 1]).Keys !! cs[|cs| - 1].additions.Keys)
  }

  ghost function SizeSum(tc: TextCodec, cs: seq<Candidate>): nat {
    if cs == [] then 0 else SizeSum(tc, cs[..|cs| - 1]) + AdditionsSize(tc, cs[|cs| - 1].additions)
  }

  lemma UnionPush(tc: TextCodec, cs: seq<Candidate>, c: Candidate)
    ensures Union(cs + [c]) == Union(cs) + c.additions
    ensures KeysDisjoint(cs + [c]) <==> KeysDisjoint(cs) && Union(cs).Keys !! c.additions.Keys
    ensures SizeSum(tc, cs + [c]) == SizeSum(tc, cs) + AdditionsSize(tc, c.additions)
  {
    assert (cs + [c])[..|cs|] == cs;
  }

  /** A disjoint union holds every candidate's values untouched, and nothing else. */
  lemma {:induction false} UnionHoldsEach(cs: seq<Candidate>)
    requires KeysDisjoint(cs)
    ensures forall i, j :: 0 <= i < j < |cs| ==> cs[i].additions.Keys !! cs[j].additions.Keys
    ensures forall c, k :: c in cs && k in c.additions ==> k in Union(cs) && Union(cs)[k] == c.additions[k]
    ensures forall k :: k in Union(cs) ==> exists c :: c in cs && k in c.additions
  {
    if cs != [] {
      var before, c := cs[..|cs| - 1], cs[|cs| - 1];
      UnionHoldsEach(before);
      forall i, j | 0 <= i < j < |cs| ensures cs[i].additions.Keys !! cs[j].additions.Keys {
        if j == |cs| - 1 {
          assert before[i] in before;
          forall k | k in cs[i].additions ensures k !in c.additions { assert k in Union(before); }
        } else {
          assert before[i] == cs[i] && before[j] == cs[j];
        }
      }
      forall d, k | d in cs && k in d.additions ensures k in Union(cs) && Union(cs)[k] == d.additions[k] {
        if d in before { assert k in Union(before); }
      }
      forall k | k in Union(cs) ensures exists d :: d in cs && k in d.additions {
        if k in c.additions {
          assert c in cs;
        } else {
          var d :| d in before && k in d.additions;
        }
      }
    }
  }

  lemma {:induction false} UnionSize(tc: TextCodec, cs: seq<Candidate>)
    requires KeysDisjoint(cs)
    ensures AdditionsSize(tc, Union(cs)) == SizeSum(tc, cs)
  {
    if cs == [] {
      NoAdditionsNoSize(tc);
    } else {
      UnionSize(tc, cs[..|cs| - 1]);
      SizeOfDisjointUnion(tc, Union(cs[..|cs| - 1]), cs[|cs| - 1].additions);
    }
  }

  /** The merged additions are the disjoint union of the chosen candidates, within the budget. */
  ghost predicate WithinBudget(tc: TextCodec, maxBytes: nat, m: Merge) {
    m.merged == Union(m.chosen) && KeysDisjoint(m.chosen) && m.bytes == SizeSum(tc, m.chosen) <= maxBytes
  }

  lemma MergeStepStaysWithin(tc: TextCodec, maxBytes: nat, m: Merge, c: Candidate, n: Merge)
    requires WithinBudget(tc, maxBytes, m) && MergeStep(tc, maxBytes, m, c, n)
    ensures WithinBudget(tc, maxBytes, n)
  {
    UnionPush(tc, m.chosen, c);
  }

  lemma {:induction false} MergeIsDisjointUnion(tc: TextCodec, chain: ContentMap, maxBytes: nat, cs: seq<Candidate>)
    ensures WithinBudget(tc, maxBytes, MergeAll(tc, chain, maxBytes, cs))
  {
    if cs != [] {
      var before := cs[..|cs| - 1];
      MergeIsDisjointUnion(tc, chain, maxBytes, before);
      var m := MergeAll(tc, chain, maxBytes, before);
      MergeItemSteps(tc, chain, maxBytes, m, cs[|cs| - 1]);
      MergeStepStaysWithin(tc, maxBytes, m, cs[|cs| - 1], MergeAll(tc, chain, maxBytes, cs));
    }
  }

  lemma {:induction false} MergeSorts(tc: TextCodec, chain: ContentMap, maxBytes: nat, cs: seq<Candidate>)
    ensures var m := MergeAll(tc, chain, maxBytes, cs);
      && (forall c :: c in m.chosen ==> c in cs && !AlreadyPresent(tc, chain, c.additions))
      && (forall c :: c in m.present <==> c in cs && AlreadyPresent(tc, chain, c.additions))
  {
    if cs != [] {
      var before, c := cs[..|cs| - 1], cs[|cs| - 1];
      MergeSorts(tc, chain, maxBytes, before);
      assert forall d :: d in cs <==> d in before || d == c;
    }
  }

  lemma {:induction false} SurvivorsAreSolid(build: Additions -> bool, cs: seq<Candidate>)
    ensures var b := Bisect(build, cs);
      && (forall c :: c in b.survivors <==> c in cs && build(c.additions))
      && (forall r :: r in b.blamed <==> exists c :: c in cs && !build(c.additions) && r == Rejection(c.ref, BuildFailed))
  {
    if cs != [] {
      var before, c := cs[..|cs| - 1], cs[|cs| - 1];
      SurvivorsAreSolid(build, before);
      assert forall d :: d in cs <==> d in before || d == c;
    }
  }

  /** Dropping the blamed candidates keeps a disjoint union within its size. */
  lemma {:induction false} SurvivorsAreDisjointUnion(tc: TextCodec, build: Additions -> bool, cs: seq<Candidate>)
    requires KeysDisjoint(cs)
    ensures var b := Bisect(build, cs);
      && b.rebuilt == Union(b.survivors) && KeysDisjoint(b.survivors)
      && Union(b.survivors).Keys <= Union(cs).Keys && SizeSum(tc, b.survivors) <= SizeSum(tc, cs)
  {
    if cs != [] {
      SurvivorsAreDisjointUnion(tc, build, cs[..|cs| - 1]);
      UnionPush(tc, Bisect(build, cs[..|cs| - 1]).survivors, cs[|cs| - 1]);
    }
  }

  /** The broadcast of a plan is the disjoint union of what its carried candidates add. */
  lemma PlanIsDisjointUnion(env: Env, hasUtxos: bool, cs: seq<Candidate>, m: Merge, maxBytes: nat)
    requires Picked(cs, IdsOf(m.chosen)) == m.chosen && WithinBudget(env.tc, maxBytes, m)
    requires PlanWrite(env, hasUtxos, cs, m.merged, m.chosen).Plan?
    ensures var p := PlanWrite(env, hasUtxos, cs, m.merged, m.chosen);
      && (forall c :: c in p.carried ==> c in m.chosen)
      && KeysDisjoint(p.carried) && SizeSum(env.tc, p.carried) <= maxBytes
      && p.send == (if p.carried == [] then None else Some(Union(p.carried)))
      && (p.send.Some? ==> env.build(p.send.value))
  {
    SurvivorsAreSolid(env.build, m.chosen);
    SurvivorsAreDisjointUnion(env.tc, env.build, m.chosen);
  }

  /** At most one broadcast is attempted; on a normal return it is the disjoint union of the
      additions of the newly written items, in one buildable transaction within the budget. */
  lemma OneDisjointBroadcast(env: Env, items: seq<Ref>, maxBytes: nat)
    requires DistinctIds(items)
    ensures var o := Batch(env, items, maxBytes);
      && |o.broadcasts| <= 1
      && (o.Returned? ==>
            && o.broadcasts == (if o.carried == [] then [] else [Union(o.carried)])
            && (o.result.txid.Some? <==> o.carried != [])
            && o.result.written == Refs(o.present) + Refs(o.carried)
            && KeysDisjoint(o.carried) && AdditionsSize(env.tc, Union(o.carried)) <= maxBytes
            && (o.carried != [] ==> env.build(Union(o.carried))))
  {
    var o, g := Batch(env, items, maxBytes), GateAll(env, items);
    if o.Returned? && items != [] && g.candidates != [] {
      var chain := env.chain.value;
      CandidatesDoNotRepeat(env, items);
      PickedAreChosen(env.tc, chain.content, maxBytes, g.candidates);
      MergeIsDisjointUnion(env.tc, chain.content, maxBytes, g.candidates);
      PlanIsDisjointUnion(env, chain.hasUtxos, g.candidates, MergeAll(env.tc, chain.content, maxBytes, g.candidates), maxBytes);
    }
    if o.Returned? { UnionSize(env.tc, o.carried); }
  }

  /** Written items passed their own gate; those found on-chain are acknowledged without a write,
      and no item already on-chain is sent again. */
  lemma WrittenItemsAreGated(env: Env, items: seq<Ref>, maxBytes: nat)
    requires DistinctIds(items)
    requires Batch(env, items, maxBytes).Returned?
    ensures var o := Batch(env, items, maxBytes);
      && (o.carried != [] || o.present != [] ==> env.chain.Some?)
      && (forall c :: c in o.carried ==> Gate(env, items, c) && !AlreadyPresent(env.tc, env.chain.value.content, c.additions))
      && (forall c :: c in o.present ==> Gate(env, items, c) && AlreadyPresent(env.tc, env.chain.value.content, c.additions))
  {
    var o, g := Batch(env, items, maxBytes), GateAll(env, items);
    if items != [] && g.candidates != [] {
      var chain := env.chain.value;
      CandidatesDoNotRepeat(env, items);
      PickedAreChosen(env.tc, chain.content, maxBytes, g.candidates);
      MergeIsDisjointUnion(env.tc, chain.content, maxBytes, g.candidates);
      PlanIsDisjointUnion(env, chain.hasUtxos, g.candidates, MergeAll(env.tc, chain.content, maxBytes, g.candidates), maxBytes);
      MergeSorts(env.tc, chain.content, maxBytes, g.candidates);
      forall c | c in o.carried || c in o.present ensures Gate(env, items, c) { CandidatesAreTheGated(env, items, c); }
    }
  }

  /** Overlapping or not, every key of a union has the value some candidate gives it. */
  lemma {:induction false} UnionComesFrom(cs: seq<Candidate>, k: Key) returns (c: Candidate)
    requires k in Union(cs)
    ensures c in cs && k in c.additions && Union(cs)[k] == c.additions[k]
  {
    c := cs[|cs| - 1];
    if k !in c.additions { c := UnionComesFrom(cs[..|cs| - 1], k); }
  }

  lemma {:induction false} PickedAreGiven(cs: seq<Candidate>, ids: set<string>)
    ensures forall c :: c in Picked(cs, ids) ==> c in cs
  {
    if cs != [] { PickedAreGiven(cs[..|cs| - 1], ids); }
  }

  lemma {:induction false} RebuiltIsUnion(build: Additions -> bool, cs: seq<Candidate>)
    ensures Bisect(build, cs).rebuilt == Union(Bisect(build, cs).survivors)
  {
    if cs != [] { RebuiltIsUnion(build, cs[..|cs| - 1]); }
  }

  /** With or without repeated ids a plan sends a union of candidates. */
  lemma PlanIsUnion(env: Env, hasUtxos: bool, cs: seq<Candidate>, m: Merge)
    requires m.merged == Union(m.chosen) && forall c :: c in m.chosen ==> c in cs
    ensures var p := PlanWrite(env, hasUtxos, cs, m.merged, m.chosen);
      p.Plan? ==> (forall c :: c in p.carried ==> c in cs) && (p.send.Some? ==> p.send.value == Union(p.carried))
  {
    var picked := Picked(cs, IdsOf(m.chosen));
    PickedAreGiven(cs, IdsOf(m.chosen));
    RebuiltIsUnion(env.build, picked);
    SurvivorsAreSolid(env.build, picked);
  }

  /** What is broadcast is a union of items that passed their gates. */
  lemma BroadcastIsGatedUnion(env: Env, items: seq<Ref>, maxBytes: nat) returns (cs: seq<Candidate>)
    requires Batch(env, items, maxBytes).broadcasts != []
    ensures var o := Batch(env, items, maxBytes);
      o.broadcasts[0] == Union(cs) && (o.Returned? ==> o.carried == cs)
    ensures forall c :: c in cs ==> Gate(env, items, c)
  {
    var candidates, chain := GateAll(env, items).candidates, env.chain.value;
    var m := MergeAll(env.tc, chain.content, maxBytes, candidates);
    MergeIsDisjointUnion(env.tc, chain.content, maxBytes, candidates);
    MergeSorts(env.tc, chain.content, maxBytes, candidates);
    PlanIsUnion(env, chain.hasUtxos, candidates, m);
    cs := PlanWrite(env, chain.hasUtxos, candidates, m.merged, m.chosen).carried;
    forall c | c in cs ensures Gate(env, items, c) { CandidatesAreTheGated(env, items, c); }
  }

  /** Every key of a broadcast, repeated ids or not and whatever becomes of it, was contributed by an
      item that passed its gate and whose own type allows the key. */
  lemma BroadcastKeysAreAllowed(env: Env, items: seq<Ref>, maxBytes: nat)
    requires Batch(env, items, maxBytes).broadcasts != []
    ensures var o := Batch(env, items, maxBytes);
      forall k :: k in o.broadcasts[0] ==>
        exists c :: Gate(env, items, c) && k in c.additions && o.broadcasts[0][k] == c.additions[k]
                    && Allows(c.ref.itemType, k) && (o.Returned? ==> c in o.carried)
  {
    var cs := BroadcastIsGatedUnion(env, items, maxBytes);
    forall k | k in Union(cs)
      ensures exists c :: c in cs && Gate(env, items, c) && k in c.additions && Union(cs)[k] == c.additions[k]
                          && Allows(c.ref.itemType, k)
    {
      var c := UnionComesFrom(cs, k);
      GateIsTight(env.tc, c.ref.itemType, env.fetch(c.ref.id).item, env.now);
    }
  }

  // ---- blame ----

  /** Whoever a plan rejects, bisection blamed: its solo build failed, the control build did not. */
  lemma PlanBlamesByBisection(env: Env, hasUtxos: bool, cs: seq<Candidate>, m: Merge, ref: Ref)
    requires Picked(cs, IdsOf(m.chosen)) == m.chosen && PlanWrite(env, hasUtxos, cs, m.merged, m.chosen).Plan?
    requires Rejection(ref, BuildFailed) in PlanWrite(env, hasUtxos, cs, m.merged, m.chosen).rejected
    ensures env.build(map[])
    ensures exists c: Candidate :: c in m.chosen && c.ref == ref && !env.build(c.additions)
  {
    SurvivorsAreSolid(env.build, m.chosen);
  }

  /** A build failure in the result comes from the plan. */
  lemma BuildFailureIsPlanned(env: Env, items: seq<Ref>, maxBytes: nat, ref: Ref) returns (m: Merge, p: Plan)
    requires Batch(env, items, maxBytes).Returned?
    requires Rejection(ref, BuildFailed) in Batch(env, items, maxBytes).result.rejected
    ensures env.chain.Some? && m == MergeAll(env.tc, env.chain.value.content, maxBytes, GateAll(env, items).candidates)
    ensures p == PlanWrite(env, env.chain.value.hasUtxos, GateAll(env, items).candidates, m.merged, m.chosen)
    ensures p.Plan? && Rejection(ref, BuildFailed) in p.rejected
  {
    GateNeverBlamesTheBuild(env, items);
    var g := GateAll(env, items);
    m := MergeAll(env.tc, env.chain.value.content, maxBytes, g.candidates);
    p := PlanWrite(env, env.chain.value.hasUtxos, g.candidates, m.merged, m.chosen);
  }

  /** An item is rejected at build time only when its solo build fails while the build without
      additions succeeds: an environmental failure rejects nobody. */
  lemma BlameIsFair(env: Env, items: seq<Ref>, maxBytes: nat, ref: Ref)
    requires DistinctIds(items)
    requires Batch(env, items, maxBytes).Returned?
    requires Rejection(ref, BuildFailed) in Batch(env, items, maxBytes).result.rejected
    ensures env.build(map[])
    ensures exists c: Candidate :: c.ref == ref && Gate(env, items, c) && !env.build(c.additions)
  {
    var m, p := BuildFailureIsPlanned(env, items, maxBytes, ref);
    var chain, cs := env.chain.value, GateAll(env, items).candidates;
    CandidatesDoNotRepeat(env, items);
    PickedAreChosen(env.tc, chain.content, maxBytes, cs);
    PlanBlamesByBisection(env, chain.hasUtxos, cs, m, ref);
    var c :| c in m.chosen && c.ref == ref && !env.build(c.additions);
    MergeSorts(env.tc, chain.content, maxBytes, cs);
    CandidatesAreTheGated(env, items, c);
  }

  lemma {:induction false} GateNeverBlamesTheBuild(env: Env, items: seq<Ref>)
    ensures forall r :: r in GateAll(env, items).rejected ==> r.reason != BuildFailed
  {
    if items != [] { GateNeverBlamesTheBuild(env, items[..|items| - 1]); }
  }

  // ---- progress ----

  lemma {:induction false} MergeMakesProgress(tc: TextCodec, chain: ContentMap, maxBytes: nat, cs: seq<Candidate>, c: Candidate)
    requires c in cs && AdditionsSize(tc, c.additions) <= maxBytes
    ensures var m := MergeAll(tc, chain, maxBytes, cs); m.chosen != [] || m.present != []
  {
    var before := cs[..|cs| - 1];
    if c in before {
      MergeMakesProgress(tc, chain, maxBytes, before, c);
    } else {
      MergeIsDisjointUnion(tc, chain, maxBytes, before);
      assert c == cs[|cs| - 1];
    }
  }

  lemma PlanMakesProgress(env: Env, hasUtxos: bool, cs: seq<Candidate>, m: Merge)
    requires PlanWrite(env, hasUtxos, cs, m.merged, m.chosen).Plan? && m.chosen != []
    ensures var p := PlanWrite(env, hasUtxos, cs, m.merged, m.chosen); p.carried != [] || p.rejected != []
  {
  }

  lemma ConcludeMakesProgress(env: Env, g: Gated, m: Merge, p: Plan)
    requires p.Plan? && Conclude(env, g, m.present, m.deferred, p).Returned?
    requires p.carried != [] || p.rejected != [] || m.present != []
    ensures var r := Conclude(env, g, m.present, m.deferred, p).result; r.written != [] || r.rejected != []
  {
    assert p.carried != [] ==> Refs(p.carried) != [];
    assert m.present != [] ==> Refs(m.present) != [];
  }

  /** Whenever some gated item fits the budget, a normal return has written or rejected something. */
  lemma BatchMakesProgress(env: Env, items: seq<Ref>, maxBytes: nat, c: Candidate)
    requires DistinctIds(items)
    requires Gate(env, items, c) && AdditionsSize(env.tc, c.additions) <= maxBytes
    requires Batch(env, items, maxBytes).Returned?
    ensures var r := Batch(env, items, maxBytes).result; r.written != [] || r.rejected != []
  {
    var g := GateAll(env, items);
    CandidatesAreTheGated(env, items, c);
    var chain := env.chain.value;
    MergeMakesProgress(env.tc, chain.content, maxBytes, g.candidates, c);
    var m := MergeAll(env.tc, chain.content, maxBytes, g.candidates);
    var p := PlanWrite(env, chain.hasUtxos, g.candidates, m.merged, m.chosen);
    if m.chosen != [] { PlanMakesProgress(env, chain.hasUtxos, g.candidates, m); }
    ConcludeMakesProgress(env, g, m, p);
  }
}
