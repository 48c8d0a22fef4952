/** Repeated cycles with succeeding acks empty the inbox of everything that fits. */
module InboxDrain {
  import opened Prelude
  import opened Vdxf
  import opened VdxfGate
  import opened InboxBatch
  import opened InboxGuarantees
  import opened InboxRuns

  /** The items whose id is not in `gone`, in order. */
  function Remaining(items: seq<Ref>, gone: set<string>): seq<Ref> {
    if items == [] then []
    else
      var earlier, r := Remaining(items[..|items| - 1], gone), items[|items| - 1];
      if r.id in gone then earlier else earlier + [r]
  }

  /** The ids a result settles: acknowledged, rejected for good, or done before. */
  function Settled(r: BatchResult): set<string> {
    (set id | id in r.acked) + (set x | x in r.rejected :: x.ref.id) + (set id | id in r.alreadyDone)
  }

  /** A cycle that returns normally and whose acks succeed leaves `pending` for the next one. */
  ghost predicate Leaves(c: Cycle, pending: seq<Ref>) {
    && Batch(c.env, c.items, c.maxBytes).Returned?
    && (forall id :: c.env.ack(id) != AckError)
    && pending == Remaining(c.items, Settled(Batch(c.env, c.items, c.maxBytes).result))
  }

  /** Some gated item of the cycle fits its budget. */
  ghost predicate HasWork(c: Cycle) {
    exists d :: Gate(c.env, c.items, d) && AdditionsSize(c.env.tc, d.additions) <= c.maxBytes
  }

  lemma {:induction false} RemainingShrinks(items: seq<Ref>, gone: set<string>, x: string)
    ensures |Remaining(items, gone)| <= |items|
    ensures x in gone && Count(RefId, items, x) >= 1 ==> |Remaining(items, gone)| < |items|
    ensures Count(RefId, Remaining(items, gone), x) <= Count(RefId, items, x)
  {
    if items != [] {
      var n := |items| - 1;
      RemainingShrinks(items[..n], gone, x);
      CountPush(RefId, Remaining(items[..n], gone), items[n], x);
    }
  }

  lemma {:induction false} SupportedRemaining(items: seq<Ref>, gone: set<string>)
    ensures Supported(Remaining(items, gone)) == Remaining(Supported(items), gone)
  {
    if items != [] {
      var before, r := items[..|items| - 1], items[|items| - 1];
      SupportedRemaining(before, gone);
      SupportedPush(Remaining(before, gone), r);
      assert (Supported(before) + [r])[..|Supported(before)|] == Supported(before);
    }
  }

  lemma RemainingStayDistinct(items: seq<Ref>, gone: set<string>)
    requires DistinctIds(items)
    ensures DistinctIds(Remaining(items, gone))
  {
    SupportedRemaining(items, gone);
    forall x ensures Count(RefId, Remaining(Supported(items), gone), x) <= 1 {
      RemainingShrinks(Supported(items), gone, x);
      assert Count(RefId, Supported(items), x) <= 1;
    }
  }

  lemma {:induction false} CountWitness<T>(id: T -> string, s: seq<T>, x: string)
    ensures Count(id, s, x) >= 1 ==> exists e :: e in s && id(e) == x
  {
    if s != [] { CountWitness(id, s[..|s| - 1], x); }
  }

  /** With succeeding acks a written or rejected item is settled. */
  lemma ProgressSettles(env: Env, items: seq<Ref>, r: BatchResult) returns (x: string)
    requires forall id :: env.ack(id) != AckError
    requires (r.acked, r.ackFailed) == AckAll(env.ack, r.written)
    requires forall y :: Fates(r, y) == Count(RefId, items, y)
    requires r.written != [] || r.rejected != []
    ensures x in Settled(r) && Count(RefId, items, x) >= 1
  {
    if r.written != [] {
      x := r.written[0].id;
      CountMember(RefId, r.written, r.written[0]);
      AckPartition(env.ack, r.written, x);
      CountWitness(Self, r.acked, x);
    } else {
      x := r.rejected[0].ref.id;
      CountMember(RejectionId, r.rejected, r.rejected[0]);
      assert r.rejected[0] in r.rejected;
    }
    assert Fates(r, x) >= 1;
  }

  lemma AcksOfBatch(c: Cycle)
    requires Batch(c.env, c.items, c.maxBytes).Returned?
    ensures var r := Batch(c.env, c.items, c.maxBytes).result; (r.acked, r.ackFailed) == AckAll(c.env.ack, r.written)
  {}

  /** A cycle with work to do settles at least one item; no cycle adds any. */
  lemma CycleShrinks(c: Cycle, pending: seq<Ref>)
    requires DistinctIds(c.items) && Leaves(c, pending)
    ensures DistinctIds(pending)
    ensures |pending| + (if HasWork(c) then 1 else 0) <= |c.items|
  {
    var r := Batch(c.env, c.items, c.maxBytes).result;
    RemainingStayDistinct(c.items, Settled(r));
    RemainingShrinks(c.items, Settled(r), "");
    if HasWork(c) {
      var d :| Gate(c.env, c.items, d) && AdditionsSize(c.env.tc, d.additions) <= c.maxBytes;
      BatchMakesProgress(c.env, c.items, c.maxBytes, d);
      forall y ensures Fates(r, y) == Count(RefId, c.items, y) { EveryItemHasOneFate(c.env, c.items, c.maxBytes, y); }
      AcksOfBatch(c);
      var x := ProgressSettles(c.env, c.items, r);
      RemainingShrinks(c.items, Settled(r), x);
    }
  }

  /** How many of the cycles had work to do. */
  ghost function WorkingCycles(cycles: seq<Cycle>): nat {
    if cycles == [] then 0
    else WorkingCycles(cycles[..|cycles| - 1]) + if HasWork(cycles[|cycles| - 1]) then 1 else 0
  }

  /** The inbox drains: over any run of normal cycles with succeeding acks, in which each cycle is
      handed what the one before left, the cycles with work to do and the items still pending
      together never outnumber the items at the start. */
  lemma {:induction false} InboxDrains(cycles: seq<Cycle>, pending: seq<seq<Ref>>)
    requires |pending| == |cycles| + 1 && DistinctIds(pending[0])
    requires forall i :: 0 <= i < |cycles| ==> cycles[i].items == pending[i] && Leaves(cycles[i], pending[i + 1])
    ensures DistinctIds(pending[|cycles|])
    ensures WorkingCycles(cycles) + |pending[|cycles|]| <= |pending[0]|
  {
    if cycles != [] {
      var n := |cycles| - 1;
      InboxDrains(cycles[..n], pending[..n + 1]);
      CycleShrinks(cycles[n], pending[n + 1]);
    }
  }

  /** So among one cycle more than there are items, some cycle finds nothing left that fits. */
  lemma DrainedWithinAsManyCyclesAsItems(cycles: seq<Cycle>, pending: seq<seq<Ref>>)
    requires |pending| == |cycles| + 1 && DistinctIds(pending[0])
    requires forall i :: 0 <= i < |cycles| ==> cycles[i].items == pending[i] && Leaves(cycles[i], pending[i + 1])
    requires |cycles| > |pending[0]|
    ensures exists i :: 0 <= i < |cycles| && !HasWork(cycles[i])
  {
    InboxDrains(cycles, pending);
    IdleCycleExists(cycles);
  }

  lemma {:induction false} IdleCycleExists(cycles: seq<Cycle>)
    requires WorkingCycles(cycles) < |cycles|
    ensures exists i :: 0 <= i < |cycles| && !HasWork(cycles[i])
  {
    var n := |cycles| - 1;
    if HasWork(cycles[n]) {
      IdleCycleExists(cycles[..n]);
      var i :| 0 <= i < n && !HasWork(cycles[..n][i]);
      assert !HasWork(cycles[i]);
    }
  }
}
