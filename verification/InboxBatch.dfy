/** J41Agent.acceptInboxBatch: several pending inbox items in one identity update. */
module InboxBatch {
  import opened Prelude
  import opened Vdxf
  import opened VdxfGate

  const IDENTITY_EXPIRY_DELTA := 200

  datatype Ref = Ref(id: string, itemType: ItemType)

  datatype Fetched = FetchFailed | Item(item: InboxItem)

  datatype AckReply = AckAccepted | AlreadyProcessed | AckError

  /** What one identity and UTXO read returns. */
  datatype ChainRead = ChainRead(content: ContentMap, hasPrevOutput: bool, hasUtxos: bool)

  /** Everything outside the method during one call: the client, the clock and the builder.
      `build` tells for which additions the offline transaction build succeeds. */
  datatype Env = Env(
    agentReady: bool,
    tc: TextCodec,
    fetch: string -> Fetched,
    now: nat,
    chain: Option<ChainRead>,
    tip: Option<nat>,
    build: Additions -> bool,
    broadcast: Option<string>,
    ack: string -> AckReply)

  datatype RejectReason = TypeMismatch | GateFailed(error: GateError) | ValueTooLarge | BuildFailed
  datatype DeferReason = FetchFailure | KeyCollision | SizeBudget | RebuildFailed
  datatype Rejection = Rejection(ref: Ref, reason: RejectReason)
  datatype Deferral = Deferral(ref: Ref, reason: DeferReason)
  datatype Candidate = Candidate(ref: Ref, additions: Additions)

  datatype BatchResult = BatchResult(
    txid: Option<string>,
    expiryHeight: Option<nat>,
    written: seq<Ref>,
    acked: seq<string>,
    ackFailed: seq<string>,
    rejected: seq<Rejection>,
    deferred: seq<Deferral>,
    alreadyDone: seq<string>)

  datatype BatchError = NotReady | ReadFailed | NoPrevOutput | NoUtxos | TipUnavailable | BuildFailure | BroadcastFailure

  /** A call returns its result or throws. `broadcasts` lists the additions of every broadcast
      attempted; `present` and `carried` are the written items found on-chain and newly sent. */
  datatype Outcome =
    | Returned(result: BatchResult, broadcasts: seq<Additions>, present: seq<Candidate>, carried: seq<Candidate>)
    | Threw(error: BatchError, broadcasts: seq<Additions>)

  const EmptyResult := BatchResult(None, None, [], [], [], [], [], [])

  // ---- phase 1: fetch and gate ----

  datatype Gated = Gated(candidates: seq<Candidate>, rejected: seq<Rejection>, deferred: seq<Deferral>, alreadyDone: seq<string>)

  function GateItem(env: Env, g: Gated, ref: Ref): Gated {
    match env.fetch(ref.id)
    case FetchFailed => g.(deferred := g.deferred + [Deferral(ref, FetchFailure)])
    case Item(detail) =>
      if !detail.pending then g.(alreadyDone := g.alreadyDone + [ref.id])
      else if detail.itemType.Some? && detail.itemType.value != ref.itemType then
        g.(rejected := g.rejected + [Rejection(ref, TypeMismatch)])
      else
        match GatedAdditions(env.tc, ref.itemType, detail, env.now)
        case Err(e) => g.(rejected := g.rejected + [Rejection(ref, GateFailed(e))])
        case Ok(additions) =>
          if ValueSizesOk(env.tc, additions) then g.(candidates := g.candidates + [Candidate(ref, additions)])
          else g.(rejected := g.rejected + [Rejection(ref, ValueTooLarge)])
  }

  function GateAll(env: Env, items: seq<Ref>): Gated {
    if items == [] then Gated([], [], [], [])
    else GateItem(env, GateAll(env, items[..|items| - 1]), items[|items| - 1])
  }

  method GatePhase(env: Env, items: seq<Ref>) returns (g: Gated)
    ensures g == GateAll(env, items)
  {
    var candidates, rejected, deferred, alreadyDone := [], [], [], [];
    for i := 0 to |items|
      invariant Gated(candidates, rejected, deferred, alreadyDone) == GateAll(env, items[..i])
    {
      assert items[..i + 1][..i] == items[..i];
      var ref := items[i];
      var reply := env.fetch(ref.id);
      if reply.FetchFailed? {
        deferred := deferred + [Deferral(ref, FetchFailure)];
        continue;
      }
      var detail := reply.item;
      if !detail.pending {
        alreadyDone := alreadyDone + [ref.id];
        continue;
      }
      if detail.itemType.Some? && detail.itemType.value != ref.itemType {
        rejected := rejected + [Rejection(ref, TypeMismatch)];
        continue;
      }
      var additions := BuildInboxVdxfAdditions(env.tc, ref.itemType, detail, env.now);
      if additions.Err? {
        rejected := rejected + [Rejection(ref, GateFailed(additions.error))];
        continue;
      }
      var sizesOk := ValueSizesOk(env.tc, additions.value);
      if sizesOk {
        candidates := candidates + [Candidate(ref, additions.value)];
      } else {
        rejected := rejected + [Rejection(ref, ValueTooLarge)];
      }
    }
    assert items[..|items|] == items;
    return Gated(candidates, rejected, deferred, alreadyDone);
  }

  // ---- phase 3: merge one item per key within the budget ----

  function OnChainValues(chain: ContentMap, k: Key): Option<seq<Json>> {
    if k !in chain || chain[k] == Null then None else Some(AsArray(chain[k]))
  }

  predicate ValueAlreadyOnChain(chain: ContentMap, k: Key, values: seq<Json>) {
    OnChainValues(chain, k) == Some(values)
  }

  predicate JobHashAlreadyOnChain(tc: TextCodec, chain: ContentMap, k: Key, jobHash: Option<string>) {
    jobHash.Some? && jobHash.value != "" && OnChainValues(chain, k).Some? &&
    exists v :: v in OnChainValues(chain, k).value && ExtractJobHash(tc, v) == jobHash
  }

  function FirstJobHash(tc: TextCodec, values: seq<Json>): Option<string> {
    if values == [] then None else ExtractJobHash(tc, values[0])
  }

  /** Nothing of these additions needs a chain write. */
  predicate AlreadyPresent(tc: TextCodec, chain: ContentMap, a: Additions) {
    forall k :: k in a ==>
      || ValueAlreadyOnChain(chain, k, a[k])
      || (k == ReviewRecord && JobHashAlreadyOnChain(tc, chain, k, FirstJobHash(tc, a[k])))
  }

  datatype Merge = Merge(merged: Additions, chosen: seq<Candidate>, bytes: nat, present: seq<Candidate>, deferred: seq<Deferral>)

  ghost function MergeItem(tc: TextCodec, chain: ContentMap, maxBytes: nat, m: Merge, c: Candidate): Merge {
    if AlreadyPresent(tc, chain, c.additions) then m.(present := m.present + [c])
    else if c.additions.Keys * m.merged.Keys != {} then m.(deferred := m.deferred + [Deferral(c.ref, KeyCollision)])
    else if m.bytes + AdditionsSize(tc, c.additions) > maxBytes then
      m.(deferred := m.deferred + [Deferral(c.ref, SizeBudget)])
    else m.(merged := m.merged + c.additions, chosen := m.chosen + [c], bytes := m.bytes + AdditionsSize(tc, c.additions))
  }

  ghost function MergeAll(tc: TextCodec, chain: ContentMap, maxBytes: nat, cs: seq<Candidate>): Merge {
    if cs == [] then Merge(map[], [], 0, [], [])
    else MergeItem(tc, chain, maxBytes, MergeAll(tc, chain, maxBytes, cs[..|cs| - 1]), cs[|cs| - 1])
  }

  method MergePhase(tc: TextCodec, chain: ContentMap, maxBytes: nat, cs: seq<Candidate>) returns (m: Merge)
    ensures m == MergeAll(tc, chain, maxBytes, cs)
  {
    var merged: Additions := map[];
    var chosen, present, deferred := [], [], [];
    var runningBytes: nat := 0;
    for i := 0 to |cs|
      invariant Merge(merged, chosen, runningBytes, present, deferred) == MergeAll(tc, chain, maxBytes, cs[..i])
    {
      assert cs[..i + 1][..i] == cs[..i];
      var c := cs[i];
      var alreadyPresent := AlreadyPresent(tc, chain, c.additions);
      if alreadyPresent {
        present := present + [c];
        continue;
      }
      if c.additions.Keys * merged.Keys != {} {
        deferred := deferred + [Deferral(c.ref, KeyCollision)];
        continue;
      }
      var size := AdditionsByteSize(tc, c.additions);
      if runningBytes + size > maxBytes {
        deferred := deferred + [Deferral(c.ref, SizeBudget)];
        continue;
      }
      merged := merged + c.additions;
      chosen := chosen + [c];
      runningBytes := runningBytes + size;
    }
    assert cs[..|cs|] == cs;
    return Merge(merged, chosen, runningBytes, present, deferred);
  }

  // ---- phase 4: build, bisect, broadcast ----

  /** The candidates whose id is in ids, in order. */
  function Picked(cs: seq<Candidate>, ids: set<string>): seq<Candidate> {
    if cs == [] then []
    else
      var earlier, c := Picked(cs[..|cs| - 1], ids), cs[|cs| - 1];
      if c.ref.id in ids then earlier + [c] else earlier
  }

  function IdsOf(cs: seq<Candidate>): set<string> { set c | c in cs :: c.ref.id }

  datatype Bisection = Bisection(survivors: seq<Candidate>, rebuilt: Additions, blamed: seq<Rejection>)

  /** Solo builds decide who is to blame. */
  function Bisect(build: Additions -> bool, cs: seq<Candidate>): Bisection {
    if cs == [] then Bisection([], map[], [])
    else
      var b, c := Bisect(build, cs[..|cs| - 1]), cs[|cs| - 1];
      if build(c.additions) then b.(survivors := b.survivors + [c], rebuilt := b.rebuilt + c.additions)
      else b.(blamed := b.blamed + [Rejection(c.ref, BuildFailed)])
  }

  method BisectPhase(build: Additions -> bool, cs: seq<Candidate>, ids: set<string>) returns (b: Bisection)
    ensures b == Bisect(build, Picked(cs, ids))
  {
    var survivors: seq<Candidate>, blamed: seq<Rejection> := [], [];
    var rebuilt: Additions := map[];
    for i := 0 to |cs|
      invariant Bisection(survivors, rebuilt, blamed) == Bisect(build, Picked(cs[..i], ids))
    {
      assert cs[..i + 1][..i] == cs[..i];
      var c := cs[i];
      if c.ref.id !in ids { continue; }
      ghost var picked := Picked(cs[..i], ids);
      assert Picked(cs[..i + 1], ids) == picked + [c] && (picked + [c])[..|picked|] == picked;
      if build(c.additions) {
        rebuilt := rebuilt + c.additions;
        survivors := survivors + [c];
      } else {
        blamed := blamed + [Rejection(c.ref, BuildFailed)];
      }
    }
    assert cs[..|cs|] == cs;
    return Bisection(survivors, rebuilt, blamed);
  }

  /** The plan of phase 4: what to broadcast for whom, and who is rejected or put off. */
  datatype Plan =
    | Fail(error: BatchError)
    | Plan(send: Option<Additions>, carried: seq<Candidate>, rejected: seq<Rejection>, deferred: seq<Deferral>)

  function Postponed(cs: seq<Candidate>): seq<Deferral> {
    if cs == [] then [] else Postponed(cs[..|cs| - 1]) + [Deferral(cs[|cs| - 1].ref, RebuildFailed)]
  }

  function PlanWrite(env: Env, hasUtxos: bool, cs: seq<Candidate>, merged: Additions, chosen: seq<Candidate>): Plan {
    if chosen == [] then Plan(None, [], [], [])
    else if !hasUtxos then Fail(NoUtxos)
    else if env.tip.None? then Fail(TipUnavailable)
    else if env.build(merged) then Plan(Some(merged), chosen, [], [])
    else if !env.build(map[]) then Fail(BuildFailure)
    else
      var b := Bisect(env.build, Picked(cs, IdsOf(chosen)));
      if b.blamed == [] then Fail(BuildFailure)
      else if b.survivors == [] then Plan(None, [], b.blamed, [])
      else if env.build(b.rebuilt) then Plan(Some(b.rebuilt), b.survivors, b.blamed, [])
      else Plan(None, [], b.blamed, Postponed(b.survivors))
  }

  method WritePlan(env: Env, hasUtxos: bool, cs: seq<Candidate>, merged: Additions, chosen: seq<Candidate>) returns (p: Plan)
    ensures p == PlanWrite(env, hasUtxos, cs, merged, chosen)
  {
    if |chosen| == 0 { return Plan(None, [], [], []); }
    if !hasUtxos { return Fail(NoUtxos); }
    if env.tip.None? { return Fail(TipUnavailable); }
    if env.build(merged) { return Plan(Some(merged), chosen, [], []); }
    // Control build: without it an environmental failure would be blamed on every item.
    if !env.build(map[]) { return Fail(BuildFailure); }
    var b := BisectPhase(env.build, cs, IdsOf(chosen));
    if |b.blamed| == 0 { return Fail(BuildFailure); }
    if |b.survivors| == 0 { return Plan(None, [], b.blamed, []); }
    if env.build(b.rebuilt) { return Plan(Some(b.rebuilt), b.survivors, b.blamed, []); }
    var deferred := [];
    for i := 0 to |b.survivors|
      invariant deferred == Postponed(b.survivors[..i])
    {
      assert b.survivors[..i + 1][..i] == b.survivors[..i];
      deferred := deferred + [Deferral(b.survivors[i].ref, RebuildFailed)];
    }
    assert b.survivors[..|b.survivors|] == b.survivors;
    return Plan(None, [], b.blamed, deferred);
  }

  // ---- phase 5: acknowledge ----

  function Refs(cs: seq<Candidate>): seq<Ref> {
    if cs == [] then [] else Refs(cs[..|cs| - 1]) + [cs[|cs| - 1].ref]
  }

  /** The ids whose ack succeeded, and those whose ack failed. */
  function AckAll(ack: string -> AckReply, written: seq<Ref>): (seq<string>, seq<string>) {
    if written == [] then ([], [])
    else
      var (acked, failed), id := AckAll(ack, written[..|written| - 1]), written[|written| - 1].id;
      if ack(id) == AckError then (acked, failed + [id]) else (acked + [id], failed)
  }

  method AckPhase(ack: string -> AckReply, written: seq<Ref>) returns (acked: seq<string>, ackFailed: seq<string>)
    ensures (acked, ackFailed) == AckAll(ack, written)
  {
    acked, ackFailed := [], [];
    for i := 0 to |written|
      invariant (acked, ackFailed) == AckAll(ack, written[..i])
    {
      assert written[..i + 1][..i] == written[..i];
      var id := written[i].id;
      match ack(id) {
        case AckAccepted => acked := acked + [id];
        case AlreadyProcessed => acked := acked + [id];
        case AckError => ackFailed := ackFailed + [id];
      }
    }
    assert written[..|written|] == written;
  }

  // ---- the whole call ----

  /** Broadcast the plan, acknowledge what is written and report every item. */
  function Conclude(env: Env, g: Gated, present: seq<Candidate>, postponed: seq<Deferral>, plan: Plan): Outcome
    requires plan.Plan?
  {
    var broadcasts := if plan.send.Some? then [plan.send.value] else [];
    if plan.send.Some? && env.broadcast.None? then Threw(BroadcastFailure, broadcasts)
    else
      var written := Refs(present) + Refs(plan.carried);
      var (acked, ackFailed) := AckAll(env.ack, written);
      Returned(
        BatchResult(
          if plan.send.Some? then env.broadcast else None,
          if plan.send.Some? then Some(env.tip.GetOr(0) + IDENTITY_EXPIRY_DELTA) else None,
          written, acked, ackFailed,
          g.rejected + plan.rejected, g.deferred + postponed + plan.deferred, g.alreadyDone),
        broadcasts, present, plan.carried)
  }

  ghost function Batch(env: Env, items: seq<Ref>, maxBytes: nat): Outcome {
    if items == [] then Returned(EmptyResult, [], [], [])
    else if !env.agentReady then Threw(NotReady, [])
    else
      var g := GateAll(env, items);
      if g.candidates == [] then
        Returned(EmptyResult.(rejected := g.rejected, deferred := g.deferred, alreadyDone := g.alreadyDone), [], [], [])
      else if env.chain.None? then Threw(ReadFailed, [])
      else if !env.chain.value.hasPrevOutput then Threw(NoPrevOutput, [])
      else
        var m := MergeAll(env.tc, env.chain.value.content, maxBytes, g.candidates);
        var plan := PlanWrite(env, env.chain.value.hasUtxos, g.candidates, m.merged, m.chosen);
        if plan.Fail? then Threw(plan.error, []) else Conclude(env, g, m.present, m.deferred, plan)
  }

  method SendAndAck(env: Env, g: Gated, present: seq<Candidate>, postponed: seq<Deferral>, plan: Plan) returns (o: Outcome)
    requires plan.Plan?
    ensures o == Conclude(env, g, present, postponed, plan)
  {
    var result := EmptyResult.(rejected := g.rejected + plan.rejected,
                               deferred := g.deferred + postponed + plan.deferred,
                               alreadyDone := g.alreadyDone);
    var broadcasts := [];
    if plan.send.Some? {
      broadcasts := [plan.send.value];
      if env.broadcast.None? { return Threw(BroadcastFailure, broadcasts); }
      result := result.(txid := env.broadcast,
                        expiryHeight := Some(env.tip.GetOr(0) + IDENTITY_EXPIRY_DELTA));
    }
    result := result.(written := Refs(present) + Refs(plan.carried));
    var acked, ackFailed := AckPhase(env.ack, result.written);
    result := result.(acked := acked, ackFailed := ackFailed);
    return Returned(result, broadcasts, present, plan.carried);
  }

  method AcceptInboxBatch(env: Env, items: seq<Ref>, maxBytes: nat) returns (o: Outcome)
    ensures o == Batch(env, items, maxBytes)
  {
    if |items| == 0 { return Returned(EmptyResult, [], [], []); }
    if !env.agentReady { return Threw(NotReady, []); }
    var g := GatePhase(env, items);
    if |g.candidates| == 0 {
      return Returned(EmptyResult.(rejected := g.rejected, deferred := g.deferred, alreadyDone := g.alreadyDone), [], [], []);
    }
    if env.chain.None? { return Threw(ReadFailed, []); }
    if !env.chain.value.hasPrevOutput { return Threw(NoPrevOutput, []); }
    var m := MergePhase(env.tc, env.chain.value.content, maxBytes, g.candidates);
    var plan := WritePlan(env, env.chain.value.hasUtxos, g.candidates, m.merged, m.chosen);
    if plan.Fail? { return Threw(plan.error, []); }
    o := SendAndAck(env, g, m.present, m.deferred, plan);
  }
}
