/** What one call of acceptInboxBatch decides, told without its phases. */
module InboxLaws {
  import opened Prelude
  import opened Vdxf
  import opened VdxfGate
  import opened InboxBatch
  import opened InboxGuarantees

  // ---- what the gate reports ----

  /** The item is handed in, can be fetched as d and is still pending. */
  ghost predicate Opened(env: Env, items: seq<Ref>, ref: Ref, d: InboxItem) {
    ref in items && env.fetch(ref.id) == Item(d) && d.pending
  }

  ghost predicate Mismatched(ref: Ref, d: InboxItem) { d.itemType.Some? && d.itemType.value != ref.itemType }

  /** Why the gate rejects an item that could be fetched. */
  ghost predicate RejectedFor(env: Env, items: seq<Ref>, ref: Ref, reason: RejectReason) {
    exists d :: Opened(env, items, ref, d) &&
      (match reason
       case TypeMismatch => Mismatched(ref, d)
       case GateFailed(e) => !Mismatched(ref, d) && GatedAdditions(env.tc, ref.itemType, d, env.now) == Err(e)
       case ValueTooLarge => !Mismatched(ref, d) && GatedAdditions(env.tc, ref.itemType, d, env.now).Ok?
                             && !ValueSizesOk(env.tc, GatedAdditions(env.tc, ref.itemType, d, env.now).value)
       case BuildFailed => false)
  }

  ghost predicate ClosedWithId(env: Env, items: seq<Ref>, id: string) {
    exists ref :: ref in items && ref.id == id && env.fetch(id).Item? && !env.fetch(id).item.pending
  }

  /** The gate's lists, item by item. */
  ghost predicate GateReports(env: Env, items: seq<Ref>, g: Gated) {
    && (forall ref, reason :: Rejection(ref, reason) in g.rejected <==> RejectedFor(env, items, ref, reason))
    && (forall ref, reason :: Deferral(ref, reason) in g.deferred <==>
          ref in items && reason == FetchFailure && env.fetch(ref.id).FetchFailed?)
    && (forall id :: id in g.alreadyDone <==> ClosedWithId(env, items, id))
  }

  lemma OpenedPush(env: Env, items: seq<Ref>, ref: Ref, r: Ref, d: InboxItem)
    ensures Opened(env, items + [ref], r, d) <==> Opened(env, items, r, d) || Opened(env, [ref], r, d)
  {
  }

  lemma RejectedPush(env: Env, items: seq<Ref>, ref: Ref, r: Ref, reason: RejectReason)
    ensures RejectedFor(env, items + [ref], r, reason) <==> RejectedFor(env, items, r, reason) || RejectedFor(env, [ref], r, reason)
  {
    forall d ensures Opened(env, items + [ref], r, d) <==> Opened(env, items, r, d) || Opened(env, [ref], r, d) {
      OpenedPush(env, items, ref, r, d);
    }
  }

  lemma OneRejected(env: Env, g: Gated, ref: Ref, r: Ref, reason: RejectReason)
    ensures Rejection(r, reason) in GateItem(env, g, ref).rejected <==>
      Rejection(r, reason) in g.rejected || RejectedFor(env, [ref], r, reason)
  {
    if env.fetch(ref.id).Item? && env.fetch(ref.id).item.pending { assert Opened(env, [ref], ref, env.fetch(ref.id).item); }
  }

  lemma OneClosed(env: Env, items: seq<Ref>, g: Gated, ref: Ref, id: string)
    requires id in g.alreadyDone <==> ClosedWithId(env, items, id)
    ensures id in GateItem(env, g, ref).alreadyDone <==> ClosedWithId(env, items + [ref], id)
  {
    assert ref in items + [ref];
    if ClosedWithId(env, items, id) {
      var r :| r in items && r.id == id && env.fetch(id).Item? && !env.fetch(id).item.pending;
      assert r in items + [ref];
    }
  }

  lemma OneReported(env: Env, items: seq<Ref>, g: Gated, ref: Ref)
    requires GateReports(env, items, g)
    ensures GateReports(env, items + [ref], GateItem(env, g, ref))
  {
    var h := GateItem(env, g, ref);
    forall r, reason ensures Rejection(r, reason) in h.rejected <==> RejectedFor(env, items + [ref], r, reason) {
      OneRejected(env, g, ref, r, reason);
      RejectedPush(env, items, ref, r, reason);
    }
    forall id ensures id in h.alreadyDone <==> ClosedWithId(env, items + [ref], id) { OneClosed(env, items, g, ref, id); }
  }

  lemma {:induction false} GateReportsExactly(env: Env, items: seq<Ref>)
    ensures GateReports(env, items, GateAll(env, items))
  {
    if items != [] {
      var before, ref := items[..|items| - 1], items[|items| - 1];
      GateReportsExactly(env, before);
      assert items == before + [ref];
      OneReported(env, before, GateAll(env, before), ref);
    }
  }

  /** The candidates stand in the order their items were handed in. */
  lemma {:induction false} CandidatesInOrder(env: Env, items: seq<Ref>, i: nat, j: nat) returns (p: nat, q: nat)
    requires i < j < |GateAll(env, items).candidates|
    ensures p < q < |items|
    ensures items[p] == GateAll(env, items).candidates[i].ref && items[q] == GateAll(env, items).candidates[j].ref
  {
    var n := |items| - 1;
    var g := GateAll(env, items[..n]);
    if j < |g.candidates| {
      p, q := CandidatesInOrder(env, items[..n], i, j);
    } else {
      q := n;
      CandidatesAreTheGated(env, items[..n], g.candidates[i]);
      p :| 0 <= p < n && items[..n][p] == g.candidates[i].ref;
    }
  }

  // ---- what needs no write ----

  /** What the chain shows under a key: nothing, an array, or a single value as one. */
  function OnChain(chain: ContentMap, k: Key): Option<seq<Json>> {
    if k !in chain then None
    else match chain[k]
         case Null => None
         case Arr(elems) => Some(elems)
         case v => Some([v])
  }

  /** Additions need no write exactly if the chain shows each of their values as it is, or, under the
      review key, a review of the job that the first of theirs names. */
  lemma PresentExactly(tc: TextCodec, chain: ContentMap, a: Additions)
    ensures AlreadyPresent(tc, chain, a) <==>
      forall k :: k in a ==>
        OnChain(chain, k).Some? &&
        (OnChain(chain, k).value == a[k]
         || (k == ReviewRecord && |a[k]| > 0 && ExtractJobHash(tc, a[k][0]).Some? && ExtractJobHash(tc, a[k][0]).value != ""
             && exists v :: v in OnChain(chain, k).value && ExtractJobHash(tc, v) == ExtractJobHash(tc, a[k][0])))
  {
    forall k ensures OnChain(chain, k) == OnChainValues(chain, k) {}
  }

  // ---- what is chosen ----

  /** Those of cs that are among the picks, in order. */
  function Among(cs: seq<Candidate>, picks: seq<Candidate>): seq<Candidate> {
    if cs == [] then []
    else
      var earlier, c := Among(cs[..|cs| - 1], picks), cs[|cs| - 1];
      if c in picks then earlier + [c] else earlier
  }

  /** c writes a key that one of `before` writes. */
  ghost predicate Clashes(c: Candidate, before: seq<Candidate>) {
    exists d, k :: d in before && k in d.additions && k in c.additions
  }

  /** c is too large beside `before`. */
  ghost predicate Overflows(tc: TextCodec, maxBytes: nat, c: Candidate, before: seq<Candidate>) {
    SizeSum(tc, before) + AdditionsSize(tc, c.additions) > maxBytes
  }

  /** Each candidate is chosen exactly if it needs a write, shares no key with the ones chosen before it
      and fits beside them. */
  ghost predicate Greedy(tc: TextCodec, chain: ContentMap, maxBytes: nat, cs: seq<Candidate>, chosen: seq<Candidate>) {
    && chosen == Among(cs, chosen)
    && forall n :: 0 <= n < |cs| ==>
         (cs[n] in chosen <==>
          !AlreadyPresent(tc, chain, cs[n].additions) && !Clashes(cs[n], Among(cs[..n], chosen))
          && !Overflows(tc, maxBytes, cs[n], Among(cs[..n], chosen)))
  }

  lemma {:induction false} UnionHasKey(cs: seq<Candidate>, d: Candidate, k: Key)
    requires d in cs && k in d.additions
    ensures k in Union(cs)
  {
    var last := cs[|cs| - 1];
    if d != last { UnionHasKey(cs[..|cs| - 1], d, k); }
  }

  lemma OverlapClashes(cs: seq<Candidate>, c: Candidate, k: Key)
    requires k in c.additions && k in Union(cs)
    ensures Clashes(c, cs)
  {
    var d := UnionComesFrom(cs, k);
  }

  lemma ClashOverlaps(cs: seq<Candidate>, c: Candidate) returns (k: Key)
    requires Clashes(c, cs)
    ensures k in c.additions && k in Union(cs)
  {
    var d, l :| d in cs && l in d.additions && l in c.additions;
    UnionHasKey(cs, d, l);
    k := l;
  }

  lemma ClashesIsOverlap(tc: TextCodec, maxBytes: nat, m: Merge, c: Candidate)
    requires WithinBudget(tc, maxBytes, m)
    ensures Clashes(c, m.chosen) <==> c.additions.Keys * m.merged.Keys != {}
  {
    if c.additions.Keys * m.merged.Keys != {} {
      var k :| k in c.additions.Keys * m.merged.Keys;
      OverlapClashes(m.chosen, c, k);
    }
    if Clashes(c, m.chosen) {
      var k := ClashOverlaps(m.chosen, c);
      assert k in c.additions.Keys * m.merged.Keys;
    }
  }

  lemma OneMerged(tc: TextCodec, chain: ContentMap, maxBytes: nat, m: Merge, c: Candidate)
    requires WithinBudget(tc, maxBytes, m)
    ensures MergeItem(tc, chain, maxBytes, m, c).chosen ==
      if !AlreadyPresent(tc, chain, c.additions) && !Clashes(c, m.chosen) && !Overflows(tc, maxBytes, c, m.chosen)
      then m.chosen + [c] else m.chosen
  {
    ClashesIsOverlap(tc, maxBytes, m, c);
  }

  lemma MergePush(tc: TextCodec, chain: ContentMap, maxBytes: nat, cs: seq<Candidate>, n: nat)
    requires n < |cs|
    ensures var m := MergeAll(tc, chain, maxBytes, cs[..n]);
      WithinBudget(tc, maxBytes, m) && MergeAll(tc, chain, maxBytes, cs[..n + 1]) == MergeItem(tc, chain, maxBytes, m, cs[n])
  {
    assert cs[..n + 1][..n] == cs[..n];
    MergeIsDisjointUnion(tc, chain, maxBytes, cs[..n]);
  }

  lemma AmongPush(cs: seq<Candidate>, n: nat, picks: seq<Candidate>)
    requires n < |cs|
    ensures Among(cs[..n + 1], picks) == if cs[n] in picks then Among(cs[..n], picks) + [cs[n]] else Among(cs[..n], picks)
  {
    assert cs[..n + 1][..n] == cs[..n];
  }

  ghost predicate GreedySoFar(tc: TextCodec, chain: ContentMap, maxBytes: nat, cs: seq<Candidate>, chosen: seq<Candidate>, n: nat)
    requires n <= |cs|
  {
    MergeAll(tc, chain, maxBytes, cs[..n]).chosen == Among(cs[..n], chosen)
  }

  lemma GreedyStep(tc: TextCodec, chain: ContentMap, maxBytes: nat, cs: seq<Candidate>, chosen: seq<Candidate>, n: nat)
    requires Greedy(tc, chain, maxBytes, cs, chosen) && n < |cs| && GreedySoFar(tc, chain, maxBytes, cs, chosen, n)
    ensures GreedySoFar(tc, chain, maxBytes, cs, chosen, n + 1)
  {
    MergePush(tc, chain, maxBytes, cs, n);
    AmongPush(cs, n, chosen);
    OneMerged(tc, chain, maxBytes, MergeAll(tc, chain, maxBytes, cs[..n]), cs[n]);
  }

  /** The merge visits the greedy choice. */
  lemma MergeIsGreedy(tc: TextCodec, chain: ContentMap, maxBytes: nat, cs: seq<Candidate>, chosen: seq<Candidate>, n: nat)
    requires Greedy(tc, chain, maxBytes, cs, chosen) && n <= |cs|
    ensures MergeAll(tc, chain, maxBytes, cs[..n]).chosen == Among(cs[..n], chosen)
  {
    for i := 0 to n
      invariant GreedySoFar(tc, chain, maxBytes, cs, chosen, i)
    {
      GreedyStep(tc, chain, maxBytes, cs, chosen, i);
    }
  }

  lemma NoRepeatsIsDistinct(cs: seq<Candidate>)
    requires NoRepeats(CandidateId, cs)
    ensures Distinct(cs)
  {
    forall i, j | 0 <= i < j < |cs| ensures cs[i] != cs[j] { EarlierIsOther(cs, i, j); }
  }

  lemma {:induction false} CountPrefix(cs: seq<Candidate>, n: nat, x: string)
    requires n <= |cs|
    ensures Count(CandidateId, cs[..n], x) <= Count(CandidateId, cs, x)
  {
    if n < |cs| {
      assert cs[..|cs| - 1][..n] == cs[..n];
      CountPrefix(cs[..|cs| - 1], n, x);
    } else {
      assert cs[..n] == cs;
    }
  }

  lemma EarlierIsOther(cs: seq<Candidate>, i: nat, j: nat)
    requires NoRepeats(CandidateId, cs) && i < j < |cs|
    ensures cs[i] != cs[j]
  {
    var x := cs[j].ref.id;
    assert Count(CandidateId, cs, x) <= 1;
    CountPrefix(cs, j + 1, x);
    assert cs[..j + 1][..j] == cs[..j];
    if cs[i] == cs[j] {
      assert cs[i] in cs[..j];
      CountMember(CandidateId, cs[..j], cs[i]);
    }
  }

  lemma {:induction false} ChosenAtItsTurn(tc: TextCodec, chain: ContentMap, maxBytes: nat, cs: seq<Candidate>, k: nat)
    requires Distinct(cs) && k < |cs|
    ensures cs[k] in MergeAll(tc, chain, maxBytes, cs).chosen <==> cs[k] in MergeAll(tc, chain, maxBytes, cs[..k + 1]).chosen
  {
    if k + 1 < |cs| {
      assert cs[..|cs| - 1][..k + 1] == cs[..k + 1];
      ChosenAtItsTurn(tc, chain, maxBytes, cs[..|cs| - 1], k);
    } else {
      assert cs[..k + 1] == cs;
    }
  }

  lemma ChosenStep(tc: TextCodec, chain: ContentMap, maxBytes: nat, cs: seq<Candidate>, n: nat)
    requires Distinct(cs) && n < |cs| && GreedySoFar(tc, chain, maxBytes, cs, MergeAll(tc, chain, maxBytes, cs).chosen, n)
    ensures GreedySoFar(tc, chain, maxBytes, cs, MergeAll(tc, chain, maxBytes, cs).chosen, n + 1)
  {
    ChosenAtItsTurn(tc, chain, maxBytes, cs, n);
    AmongPush(cs, n, MergeAll(tc, chain, maxBytes, cs).chosen);
    MergePush(tc, chain, maxBytes, cs, n);
    MergeSorts(tc, chain, maxBytes, cs[..n]);
  }

  lemma ChosenSoFar(tc: TextCodec, chain: ContentMap, maxBytes: nat, cs: seq<Candidate>, n: nat)
    requires Distinct(cs) && n <= |cs|
    ensures Among(cs[..n], MergeAll(tc, chain, maxBytes, cs).chosen) == MergeAll(tc, chain, maxBytes, cs[..n]).chosen
  {
    for i := 0 to n
      invariant GreedySoFar(tc, chain, maxBytes, cs, MergeAll(tc, chain, maxBytes, cs).chosen, i)
    {
      ChosenStep(tc, chain, maxBytes, cs, i);
    }
  }

  /** With distinct ids there is a greedy choice. */
  lemma GreedyExists(tc: TextCodec, chain: ContentMap, maxBytes: nat, cs: seq<Candidate>) returns (chosen: seq<Candidate>)
    requires NoRepeats(CandidateId, cs)
    ensures Greedy(tc, chain, maxBytes, cs, chosen)
  {
    NoRepeatsIsDistinct(cs);
    chosen := MergeAll(tc, chain, maxBytes, cs).chosen;
    assert cs[..|cs|] == cs;
    ChosenSoFar(tc, chain, maxBytes, cs, |cs|);
    forall n | 0 <= n < |cs|
      ensures cs[n] in chosen <==>
          !AlreadyPresent(tc, chain, cs[n].additions) && !Clashes(cs[n], Among(cs[..n], chosen))
          && !Overflows(tc, maxBytes, cs[n], Among(cs[..n], chosen))
    {
      ChosenSoFar(tc, chain, maxBytes, cs, n);
      TurnDecides(tc, chain, maxBytes, cs, n);
    }
  }

  lemma TurnDecides(tc: TextCodec, chain: ContentMap, maxBytes: nat, cs: seq<Candidate>, n: nat)
    requires Distinct(cs) && n < |cs|
    ensures var before := MergeAll(tc, chain, maxBytes, cs[..n]).chosen;
      cs[n] in MergeAll(tc, chain, maxBytes, cs).chosen <==>
        !AlreadyPresent(tc, chain, cs[n].additions) && !Clashes(cs[n], before) && !Overflows(tc, maxBytes, cs[n], before)
  {
    ChosenAtItsTurn(tc, chain, maxBytes, cs, n);
    assert cs[..n + 1][..n] == cs[..n];
    MergeIsDisjointUnion(tc, chain, maxBytes, cs[..n]);
    MergeSorts(tc, chain, maxBytes, cs[..n]);
    OneMerged(tc, chain, maxBytes, MergeAll(tc, chain, maxBytes, cs[..n]), cs[n]);
  }

  // ---- what is planned ----

  /** Those of cs that build alone, in order. */
  function Solid(build: Additions -> bool, cs: seq<Candidate>): seq<Candidate> {
    if cs == [] then []
    else
      var earlier, c := Solid(build, cs[..|cs| - 1]), cs[|cs| - 1];
      if build(c.additions) then earlier + [c] else earlier
  }

  /** Who is sent: the chosen if they build together, or else, unless the build fails without any
      addition or for no one alone, those that build alone if they build together. */
  function Sent(build: Additions -> bool, chosen: seq<Candidate>): seq<Candidate> {
    if build(Union(chosen)) then chosen
    else
      var solid := Solid(build, chosen);
      if build(Union(solid)) then solid else []
  }

  /** Why nothing can be written although something is chosen. */
  function PlanFailure(env: Env, hasUtxos: bool, chosen: seq<Candidate>): Option<BatchError> {
    if chosen == [] then None
    else if !hasUtxos then Some(NoUtxos)
    else if env.tip.None? then Some(TipUnavailable)
    else if !env.build(Union(chosen)) && (!env.build(map[]) || forall c :: c in chosen ==> env.build(c.additions)) then Some(BuildFailure)
    else None
  }

  /** Whom the plan blames and puts off: only where the chosen do not build together; blamed is who
      does not build alone, put off is who does if even those do not build together. */
  ghost predicate Blames(build: Additions -> bool, chosen: seq<Candidate>, rejected: seq<Rejection>, deferred: seq<Deferral>) {
    && (forall ref, reason :: Rejection(ref, reason) in rejected <==>
          (reason == BuildFailed && !build(Union(chosen)) && exists c :: c in chosen && c.ref == ref && !build(c.additions)))
    && (forall ref, reason :: Deferral(ref, reason) in deferred <==>
          (reason == RebuildFailed && !build(Union(chosen)) && !build(Union(Solid(build, chosen)))
           && exists c :: c in chosen && c.ref == ref && build(c.additions)))
  }

  lemma {:induction false} SolidIsSurvivors(build: Additions -> bool, cs: seq<Candidate>)
    ensures Bisect(build, cs).survivors == Solid(build, cs)
    ensures Bisect(build, cs).blamed == [] <==> forall c :: c in cs ==> build(c.additions)
    ensures forall c :: c in Solid(build, cs) <==> c in cs && build(c.additions)
  {
    if cs != [] {
      var before := cs[..|cs| - 1];
      SolidIsSurvivors(build, before);
      assert forall c :: c in cs <==> c in before || c == cs[|cs| - 1];
    }
  }

  lemma {:induction false} PostponedExactly(cs: seq<Candidate>, ref: Ref, reason: DeferReason)
    ensures Deferral(ref, reason) in Postponed(cs) <==> reason == RebuildFailed && exists c :: c in cs && c.ref == ref
  {
    if cs != [] {
      PostponedExactly(cs[..|cs| - 1], ref, reason);
      assert forall c :: c in cs <==> c in cs[..|cs| - 1] || c == cs[|cs| - 1];
    }
  }

  /** The plan, exactly. */
  lemma PlanExactly(env: Env, hasUtxos: bool, cs: seq<Candidate>, merged: Additions, chosen: seq<Candidate>)
    requires Picked(cs, IdsOf(chosen)) == chosen && merged == Union(chosen)
    ensures var p := PlanWrite(env, hasUtxos, cs, merged, chosen);
      match PlanFailure(env, hasUtxos, chosen)
      case Some(e) => p == Fail(e)
      case None => p.Plan? && p.send == (if p.carried == [] then None else Some(Union(p.carried)))
                   && p.carried == (if chosen == [] then [] else Sent(env.build, chosen))
                   && (chosen == [] ==> p.rejected == [] && p.deferred == [])
                   && (chosen != [] ==> Blames(env.build, chosen, p.rejected, p.deferred))
  {
    var build := env.build;
    SolidIsSurvivors(build, chosen);
    SurvivorsAreSolid(build, chosen);
    RebuiltIsUnion(build, chosen);
    forall ref, reason
      ensures Deferral(ref, reason) in Postponed(Solid(build, chosen)) <==>
        reason == RebuildFailed && exists c :: c in chosen && c.ref == ref && build(c.additions)
    {
      PostponedExactly(Solid(build, chosen), ref, reason);
    }
  }

  // ---- the whole call ----

  /** The call gets as far as choosing: the agent is ready, some item passes its gate, and the
      identity was read with an output to spend. */
  ghost predicate GetsToChoose(env: Env, items: seq<Ref>) {
    env.agentReady && (exists c :: Gate(env, items, c)) && env.chain.Some? && env.chain.value.hasPrevOutput
  }

  lemma SomeCandidate(env: Env, items: seq<Ref>)
    ensures GateAll(env, items).candidates != [] <==> exists c :: Gate(env, items, c)
  {
    var cs := GateAll(env, items).candidates;
    forall c ensures c in cs <==> Gate(env, items, c) { CandidatesAreTheGated(env, items, c); }
    if cs != [] { assert cs[0] in cs; }
  }

  /** Before choosing: nothing handed in returns nothing; an agent that is not ready, an identity that
      cannot be read or has no output to spend throw, the last two only if some item passes its gate;
      if none does the gate's lists are the result. */
  lemma EarlyReturnsExactly(env: Env, items: seq<Ref>, maxBytes: nat)
    requires !GetsToChoose(env, items)
    ensures var o, g := Batch(env, items, maxBytes), GateAll(env, items);
      if |items| == 0 then o == Returned(BatchResult(None, None, [], [], [], [], [], []), [], [], [])
      else if !env.agentReady then o == Threw(NotReady, [])
      else if forall c :: !Gate(env, items, c) then
        o == Returned(BatchResult(None, None, [], [], [], g.rejected, g.deferred, g.alreadyDone), [], [], [])
      else if env.chain.None? then o == Threw(ReadFailed, [])
      else o == Threw(NoPrevOutput, [])
  {
    SomeCandidate(env, items);
  }

  /** The acknowledged ids are the written ones whose reply is no error, the failed ones the others. */
  ghost predicate AcksAsReplied(ack: string -> AckReply, written: seq<Ref>, acked: seq<string>, failed: seq<string>) {
    && (forall id :: id in acked <==> ((exists r :: r in written && r.id == id) && (ack(id).AckAccepted? || ack(id).AlreadyProcessed?)))
    && (forall id :: id in failed <==> ((exists r :: r in written && r.id == id) && ack(id).AckError?))
  }

  lemma {:induction false} AckExactly(ack: string -> AckReply, written: seq<Ref>)
    ensures AcksAsReplied(ack, written, AckAll(ack, written).0, AckAll(ack, written).1)
  {
    if written != [] {
      AckExactly(ack, written[..|written| - 1]);
      assert forall r :: r in written <==> r in written[..|written| - 1] || r == written[|written| - 1];
    }
  }

  function RefOf(c: Candidate): Ref { c.ref }

  lemma {:induction false} RefsExactly(cs: seq<Candidate>)
    ensures Refs(cs) == Map(RefOf, cs)
  {
    if cs != [] {
      RefsExactly(cs[..|cs| - 1]);
      assert Map(RefOf, cs)[..|cs| - 1] == Map(RefOf, cs[..|cs| - 1]);
    }
  }

  /** The lists of a result: the gate's, the ones put off for a key or their size, and whom the
      build blames or puts off. */
  ghost predicate Lists(r: BatchResult, g: Gated, m: Merge, p: Plan)
    requires p.Plan?
  {
    r.rejected == g.rejected + p.rejected && r.deferred == g.deferred + m.deferred + p.deferred && r.alreadyDone == g.alreadyDone
  }

  /** The report of a normal return. */
  ghost predicate Reports(env: Env, o: Outcome, sent: seq<Candidate>) {
    && o.Returned? && o.carried == sent
    && o.broadcasts == (if sent == [] then [] else [Union(sent)])
    && o.result.txid == (if sent == [] then None else env.broadcast)
    && o.result.expiryHeight == (if sent == [] || env.tip.None? then None else Some(env.tip.value + 200))
    && o.result.written == Map(RefOf, o.present) + Map(RefOf, sent)
    && AcksAsReplied(env.ack, o.result.written, o.result.acked, o.result.ackFailed)
  }

  lemma ConcludeExactly(env: Env, g: Gated, m: Merge, p: Plan)
    requires p.Plan? && p.send == (if p.carried == [] then None else Some(Union(p.carried)))
    requires p.carried != [] ==> env.tip.Some?
    ensures var o := Conclude(env, g, m.present, m.deferred, p);
      if p.carried != [] && env.broadcast.None? then o == Threw(BroadcastFailure, [Union(p.carried)])
      else Reports(env, o, p.carried) && o.present == m.present && Lists(o.result, g, m, p)
  {
    RefsExactly(m.present);
    RefsExactly(p.carried);
    AckExactly(env.ack, Refs(m.present) + Refs(p.carried));
  }

  /** Who is sent in the end. */
  function SentOf(env: Env, chosen: seq<Candidate>): seq<Candidate> {
    if chosen == [] then [] else Sent(env.build, chosen)
  }

  lemma ChosenArePicked(env: Env, items: seq<Ref>, maxBytes: nat, chosen: seq<Candidate>) returns (m: Merge)
    requires DistinctIds(items) && env.chain.Some?
    requires Greedy(env.tc, env.chain.value.content, maxBytes, GateAll(env, items).candidates, chosen)
    ensures m == MergeAll(env.tc, env.chain.value.content, maxBytes, GateAll(env, items).candidates)
    ensures m.chosen == chosen && m.merged == Union(chosen) && Picked(GateAll(env, items).candidates, IdsOf(chosen)) == chosen
  {
    var chain, cs := env.chain.value.content, GateAll(env, items).candidates;
    m := MergeAll(env.tc, chain, maxBytes, cs);
    CandidatesDoNotRepeat(env, items);
    PickedAreChosen(env.tc, chain, maxBytes, cs);
    MergeIsDisjointUnion(env.tc, chain, maxBytes, cs);
    assert cs[..|cs|] == cs;
    MergeIsGreedy(env.tc, chain, maxBytes, cs, chosen, |cs|);
    GreedyIsAmong(env.tc, chain, maxBytes, cs, chosen);
  }

  lemma GreedyIsAmong(tc: TextCodec, chain: ContentMap, maxBytes: nat, cs: seq<Candidate>, chosen: seq<Candidate>)
    requires Greedy(tc, chain, maxBytes, cs, chosen)
    ensures Among(cs, chosen) == chosen
  {
  }

  lemma BatchUnfolds(env: Env, items: seq<Ref>, maxBytes: nat, m: Merge, p: Plan)
    requires GetsToChoose(env, items)
    requires m == MergeAll(env.tc, env.chain.value.content, maxBytes, GateAll(env, items).candidates)
    requires p == PlanWrite(env, env.chain.value.hasUtxos, GateAll(env, items).candidates, m.merged, m.chosen)
    ensures Batch(env, items, maxBytes) ==
      if p.Fail? then Threw(p.error, []) else Conclude(env, GateAll(env, items), m.present, m.deferred, p)
  {
    SomeCandidate(env, items);
  }

  /** The call fails for want of coins or of the chain's height, or because the build fails without
      any addition or only for all together, and nothing was sent; or its broadcast fails; or else it
      sends exactly the greedy choice, less those the build blames, and reports so. */
  lemma BatchExactly(env: Env, items: seq<Ref>, maxBytes: nat, chosen: seq<Candidate>)
    requires DistinctIds(items) && GetsToChoose(env, items)
    requires Greedy(env.tc, env.chain.value.content, maxBytes, GateAll(env, items).candidates, chosen)
    ensures var o, sent := Batch(env, items, maxBytes), SentOf(env, chosen);
      match PlanFailure(env, env.chain.value.hasUtxos, chosen)
      case Some(e) => o == Threw(e, [])
      case None =>
        if sent != [] && env.broadcast.None? then o == Threw(BroadcastFailure, [Union(sent)]) else Reports(env, o, sent)
  {
    var cs, hasUtxos := GateAll(env, items).candidates, env.chain.value.hasUtxos;
    var m := ChosenArePicked(env, items, maxBytes, chosen);
    PlanExactly(env, hasUtxos, cs, m.merged, chosen);
    var p := PlanWrite(env, hasUtxos, cs, m.merged, chosen);
    BatchUnfolds(env, items, maxBytes, m, p);
    if p.Plan? { ConcludeExactly(env, GateAll(env, items), m, p); }
  }

  /** Where an item of a normal return ends and why: rejected by its gate or for its own failing
      build, put off because it could not be fetched, clashes with one chosen before it, overflows the
      budget beside those or did not build with the others, or no longer pending. */
  ghost predicate ListsExactly(env: Env, items: seq<Ref>, maxBytes: nat, chosen: seq<Candidate>, r: BatchResult)
    requires env.chain.Some?
  {
    var cs := GateAll(env, items).candidates;
    && (forall ref, reason :: Rejection(ref, reason) in r.rejected <==>
          (RejectedFor(env, items, ref, reason)
           || (reason == BuildFailed && !env.build(Union(chosen)) && exists c :: c in chosen && c.ref == ref && !env.build(c.additions))))
    && (forall ref, reason :: Deferral(ref, reason) in r.deferred <==> PutOffFor(env, items, maxBytes, cs, chosen, ref, reason))
    && (forall id :: id in r.alreadyDone <==> ClosedWithId(env, items, id))
  }

  ghost predicate PutOffFor(env: Env, items: seq<Ref>, maxBytes: nat, cs: seq<Candidate>, chosen: seq<Candidate>,
                            ref: Ref, reason: DeferReason)
    requires env.chain.Some?
  {
    match reason
    case FetchFailure => ref in items && env.fetch(ref.id).FetchFailed?
    case RebuildFailed => !env.build(Union(chosen)) && !env.build(Union(Solid(env.build, chosen)))
                          && exists c :: c in chosen && c.ref == ref && env.build(c.additions)
    case _ => PutOffInMerge(env.tc, env.chain.value.content, maxBytes, cs, chosen, |cs|, ref, reason)
  }

  /** One of the first n candidates needs a write but shares a key with one chosen before it, or else
      is too large beside those. */
  ghost predicate PutOffInMerge(tc: TextCodec, chain: ContentMap, maxBytes: nat, cs: seq<Candidate>, chosen: seq<Candidate>,
                                n: nat, ref: Ref, reason: DeferReason)
    requires n <= |cs|
  {
    exists i :: 0 <= i < n && PutOffAt(tc, chain, maxBytes, cs, chosen, i, ref, reason)
  }

  ghost predicate PutOffAt(tc: TextCodec, chain: ContentMap, maxBytes: nat, cs: seq<Candidate>, chosen: seq<Candidate>,
                           i: nat, ref: Ref, reason: DeferReason)
    requires i < |cs|
  {
    var c, before := cs[i], Among(cs[..i], chosen);
    && c.ref == ref && !AlreadyPresent(tc, chain, c.additions)
    && (if reason == KeyCollision then Clashes(c, before)
        else reason == SizeBudget && !Clashes(c, before) && Overflows(tc, maxBytes, c, before))
  }

  lemma OneDeferred(tc: TextCodec, chain: ContentMap, maxBytes: nat, cs: seq<Candidate>, chosen: seq<Candidate>,
                    m: Merge, i: nat, ref: Ref, reason: DeferReason)
    requires i < |cs| && WithinBudget(tc, maxBytes, m) && m.chosen == Among(cs[..i], chosen)
    ensures Deferral(ref, reason) in MergeItem(tc, chain, maxBytes, m, cs[i]).deferred <==>
      Deferral(ref, reason) in m.deferred || PutOffAt(tc, chain, maxBytes, cs, chosen, i, ref, reason)
  {
    ClashesIsOverlap(tc, maxBytes, m, cs[i]);
  }

  lemma PutOffPush(tc: TextCodec, chain: ContentMap, maxBytes: nat, cs: seq<Candidate>, chosen: seq<Candidate>,
                   n: nat, ref: Ref, reason: DeferReason)
    requires n < |cs|
    ensures PutOffInMerge(tc, chain, maxBytes, cs, chosen, n + 1, ref, reason) <==>
      PutOffInMerge(tc, chain, maxBytes, cs, chosen, n, ref, reason) || PutOffAt(tc, chain, maxBytes, cs, chosen, n, ref, reason)
  {
  }

  lemma DeferredStep(tc: TextCodec, chain: ContentMap, maxBytes: nat, cs: seq<Candidate>, chosen: seq<Candidate>,
                     n: nat, ref: Ref, reason: DeferReason)
    requires Greedy(tc, chain, maxBytes, cs, chosen) && n < |cs|
    ensures Deferral(ref, reason) in MergeAll(tc, chain, maxBytes, cs[..n + 1]).deferred <==>
      Deferral(ref, reason) in MergeAll(tc, chain, maxBytes, cs[..n]).deferred || PutOffAt(tc, chain, maxBytes, cs, chosen, n, ref, reason)
  {
    assert cs[..n + 1][..n] == cs[..n];
    MergeIsDisjointUnion(tc, chain, maxBytes, cs[..n]);
    MergeIsGreedy(tc, chain, maxBytes, cs, chosen, n);
    OneDeferred(tc, chain, maxBytes, cs, chosen, MergeAll(tc, chain, maxBytes, cs[..n]), n, ref, reason);
  }

  lemma {:induction false} DeferredInMerge(tc: TextCodec, chain: ContentMap, maxBytes: nat, cs: seq<Candidate>,
                                           chosen: seq<Candidate>, n: nat, ref: Ref, reason: DeferReason)
    requires Greedy(tc, chain, maxBytes, cs, chosen) && n <= |cs|
    ensures Deferral(ref, reason) in MergeAll(tc, chain, maxBytes, cs[..n]).deferred <==>
      PutOffInMerge(tc, chain, maxBytes, cs, chosen, n, ref, reason)
  {
    if n > 0 {
      DeferredInMerge(tc, chain, maxBytes, cs, chosen, n - 1, ref, reason);
      PutOffPush(tc, chain, maxBytes, cs, chosen, n - 1, ref, reason);
      DeferredStep(tc, chain, maxBytes, cs, chosen, n - 1, ref, reason);
    }
  }

  lemma MergeDefersForTwoReasons(tc: TextCodec, chain: ContentMap, maxBytes: nat, cs: seq<Candidate>, chosen: seq<Candidate>,
                                 n: nat, ref: Ref, reason: DeferReason)
    requires n <= |cs| && PutOffInMerge(tc, chain, maxBytes, cs, chosen, n, ref, reason)
    ensures reason == KeyCollision || reason == SizeBudget
  {
  }

  lemma DeferralsExactly(env: Env, items: seq<Ref>, maxBytes: nat, chosen: seq<Candidate>, m: Merge, p: Plan,
                         ref: Ref, reason: DeferReason)
    requires env.chain.Some? && var cs := GateAll(env, items).candidates;
      Greedy(env.tc, env.chain.value.content, maxBytes, cs, chosen) && m == MergeAll(env.tc, env.chain.value.content, maxBytes, cs)
    requires p.Plan? && if chosen == [] then p.deferred == [] else Blames(env.build, chosen, p.rejected, p.deferred)
    ensures Deferral(ref, reason) in GateAll(env, items).deferred + m.deferred + p.deferred <==>
      PutOffFor(env, items, maxBytes, GateAll(env, items).candidates, chosen, ref, reason)
  {
    var tc, chain, cs := env.tc, env.chain.value.content, GateAll(env, items).candidates;
    GateReportsExactly(env, items);
    assert cs[..|cs|] == cs;
    DeferredInMerge(tc, chain, maxBytes, cs, chosen, |cs|, ref, reason);
    if PutOffInMerge(tc, chain, maxBytes, cs, chosen, |cs|, ref, reason) {
      MergeDefersForTwoReasons(tc, chain, maxBytes, cs, chosen, |cs|, ref, reason);
    }
    var d := Deferral(ref, reason);
    assert d in GateAll(env, items).deferred + m.deferred + p.deferred <==>
      d in GateAll(env, items).deferred || d in m.deferred || d in p.deferred;
  }

  lemma RejectionsExactly(env: Env, items: seq<Ref>, chosen: seq<Candidate>, p: Plan, ref: Ref, reason: RejectReason)
    requires p.Plan? && if chosen == [] then p.rejected == [] else Blames(env.build, chosen, p.rejected, p.deferred)
    ensures Rejection(ref, reason) in GateAll(env, items).rejected + p.rejected <==>
      (RejectedFor(env, items, ref, reason)
       || (reason == BuildFailed && !env.build(Union(chosen)) && exists c :: c in chosen && c.ref == ref && !env.build(c.additions)))
  {
    GateReportsExactly(env, items);
  }

  lemma ListsOfPlan(env: Env, items: seq<Ref>, maxBytes: nat, chosen: seq<Candidate>, m: Merge, p: Plan, r: BatchResult)
    requires env.chain.Some? && var cs := GateAll(env, items).candidates;
      Greedy(env.tc, env.chain.value.content, maxBytes, cs, chosen) && m == MergeAll(env.tc, env.chain.value.content, maxBytes, cs)
    requires p.Plan? && if chosen == [] then p.rejected == [] && p.deferred == [] else Blames(env.build, chosen, p.rejected, p.deferred)
    requires Lists(r, GateAll(env, items), m, p)
    ensures ListsExactly(env, items, maxBytes, chosen, r)
  {
    GateReportsExactly(env, items);
    forall ref, reason
      ensures Rejection(ref, reason) in r.rejected <==>
          (RejectedFor(env, items, ref, reason)
           || (reason == BuildFailed && !env.build(Union(chosen)) && exists c :: c in chosen && c.ref == ref && !env.build(c.additions)))
    {
      RejectionsExactly(env, items, chosen, p, ref, reason);
    }
    forall ref, reason
      ensures Deferral(ref, reason) in r.deferred <==>
        PutOffFor(env, items, maxBytes, GateAll(env, items).candidates, chosen, ref, reason)
    {
      DeferralsExactly(env, items, maxBytes, chosen, m, p, ref, reason);
    }
  }

  /** Every rejection and every deferral of a normal return has its cause, and every cause its entry. */
  lemma FatesExactly(env: Env, items: seq<Ref>, maxBytes: nat, chosen: seq<Candidate>)
    requires DistinctIds(items) && GetsToChoose(env, items) && Batch(env, items, maxBytes).Returned?
    requires Greedy(env.tc, env.chain.value.content, maxBytes, GateAll(env, items).candidates, chosen)
    ensures var o := Batch(env, items, maxBytes);
      && ListsExactly(env, items, maxBytes, chosen, o.result)
      && (forall c :: c in o.present <==> Gate(env, items, c) && AlreadyPresent(env.tc, env.chain.value.content, c.additions))
  {
    var cs, hasUtxos := GateAll(env, items).candidates, env.chain.value.hasUtxos;
    var m := ChosenArePicked(env, items, maxBytes, chosen);
    PlanExactly(env, hasUtxos, cs, m.merged, chosen);
    var p := PlanWrite(env, hasUtxos, cs, m.merged, chosen);
    BatchUnfolds(env, items, maxBytes, m, p);
    ConcludeExactly(env, GateAll(env, items), m, p);
    ListsOfPlan(env, items, maxBytes, chosen, m, p, Batch(env, items, maxBytes).result);
    MergeSorts(env.tc, env.chain.value.content, maxBytes, cs);
    forall c ensures c in cs <==> Gate(env, items, c) { CandidatesAreTheGated(env, items, c); }
  }

  // ---- nothing is held back ----

  /** The items that pass their gate and need a write, in order. */
  function Fresh(tc: TextCodec, chain: ContentMap, cs: seq<Candidate>): seq<Candidate> {
    if cs == [] then []
    else
      var earlier, c := Fresh(tc, chain, cs[..|cs| - 1]), cs[|cs| - 1];
      if AlreadyPresent(tc, chain, c.additions) then earlier else earlier + [c]
  }

  /** Without clashes and within the budget every novel candidate is merged. */
  lemma {:induction false} AllFreshAreMerged(tc: TextCodec, chain: ContentMap, maxBytes: nat, cs: seq<Candidate>)
    requires KeysDisjoint(Fresh(tc, chain, cs)) && SizeSum(tc, Fresh(tc, chain, cs)) <= maxBytes
    ensures MergeAll(tc, chain, maxBytes, cs).chosen == Fresh(tc, chain, cs)
  {
    if cs != [] {
      var before, c := cs[..|cs| - 1], cs[|cs| - 1];
      var novel := Fresh(tc, chain, before);
      UnionPush(tc, novel, c);
      AllFreshAreMerged(tc, chain, maxBytes, before);
      MergeIsDisjointUnion(tc, chain, maxBytes, before);
      NoCommonKey(Union(novel).Keys, c.additions.Keys);
    }
  }

  /** In a cycle in which nothing else fails, gated items that need a write, share no key and fit the
      budget together are all carried by the one broadcast. */
  lemma WholeBatchIsCarried(env: Env, items: seq<Ref>, maxBytes: nat)
    requires DistinctIds(items) && GetsToChoose(env, items) && env.chain.value.hasUtxos && env.tip.Some? && env.broadcast.Some?
    requires forall a: Additions :: env.build(a)
    requires var novel := Fresh(env.tc, env.chain.value.content, GateAll(env, items).candidates);
      KeysDisjoint(novel) && SizeSum(env.tc, novel) <= maxBytes
    ensures var o := Batch(env, items, maxBytes);
      o.Returned? && o.carried == Fresh(env.tc, env.chain.value.content, GateAll(env, items).candidates)
      && forall c :: Gate(env, items, c) && !AlreadyPresent(env.tc, env.chain.value.content, c.additions) ==> c in o.carried
  {
    var cs, chain := GateAll(env, items).candidates, env.chain.value.content;
    SomeCandidate(env, items);
    AllFreshAreMerged(env.tc, chain, maxBytes, cs);
    MergeIsDisjointUnion(env.tc, chain, maxBytes, cs);
    forall c | Gate(env, items, c) && !AlreadyPresent(env.tc, chain, c.additions) ensures c in Fresh(env.tc, chain, cs) {
      CandidatesAreTheGated(env, items, c);
      FreshMembers(env.tc, chain, cs, c);
    }
  }

  lemma {:induction false} FreshMembers(tc: TextCodec, chain: ContentMap, cs: seq<Candidate>, c: Candidate)
    ensures c in Fresh(tc, chain, cs) <==> c in cs && !AlreadyPresent(tc, chain, c.additions)
  {
    if cs != [] {
      FreshMembers(tc, chain, cs[..|cs| - 1], c);
      assert c in cs <==> c in cs[..|cs| - 1] || c == cs[|cs| - 1];
    }
  }
}
