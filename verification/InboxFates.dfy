/** When every item of a batch has one fate: the exact condition on the batch. */
module InboxFates {
  import opened Prelude
  import opened Vdxf
  import opened VdxfGate
  import opened InboxBatch
  import opened InboxGuarantees

  // ---- surroundings that show a repeated id ----

  const ONE_BYTE: Json := Str("x")

  /** One byte under the key the type may write. */
  function OneByteFor(t: ItemType): Additions { map[KeyOf(t) := [ONE_BYTE]] }

  function PlainCodec(): TextCodec { TextCodec(_ => None, _ => "x", s => s, s => |s|, _ => "") }

  /** A pending item of no declared type that holds one byte under every inbox key. */
  function AnyItem(): InboxItem {
    InboxItem(true, None, map[ReviewRecord := ONE_BYTE, ReviewAttestation := ONE_BYTE, JobRecord := ONE_BYTE],
              "", "", Null, Null, Null)
  }

  /** Only item x can be fetched, and only an update without additions builds. */
  function OnlyFetches(x: string): Env {
    Env(true, PlainCodec(), id => if id == x then Item(AnyItem()) else FetchFailed, 0,
        Some(ChainRead(map[], true, true)), Some(0), (a: Additions) => a == map[], None, _ => AckError)
  }

  lemma OneByteGated(t: ItemType)
    requires !t.Unsupported?
    ensures GatedAdditions(PlainCodec(), t, AnyItem(), 0) == Ok(OneByteFor(t)) && ValueSizesOk(PlainCodec(), OneByteFor(t))
    ensures AdditionsSize(PlainCodec(), OneByteFor(t)) == 1
  {
    var k := KeyOf(t);
    assert k in AnyItem().vdxfData && Allows(t, k);
    AllowedValuePasses(PlainCodec(), t, AnyItem(), 0, k);
    GateIsTight(PlainCodec(), t, AnyItem(), 0);
    var r := GatedAdditions(PlainCodec(), t, AnyItem(), 0);
    assert r.Ok? && k in r.value && r.value[k] == [ONE_BYTE];
    assert r.value.Keys == {k};
    assert r.value == OneByteFor(t);
    OneByteSize(t);
  }

  lemma OneByteSize(t: ItemType)
    ensures AdditionsSize(PlainCodec(), OneByteFor(t)) == 1
  {
    var sizes := Sizes(PlainCodec(), OneByteFor(t));
    assert [ONE_BYTE][..0] == [];
    assert !IsHexText("x");
    assert ArraySize(PlainCodec(), [ONE_BYTE]) == 1;
    assert sizes[KeyOf(t)] == 1;
    TotalRemove(sizes, KeyOf(t));
    assert (sizes - {KeyOf(t)}).Keys == {};
  }

  /** The candidate made of an occurrence of x. */
  predicate FromX(c: Candidate, x: string) {
    c.ref.id == x && !c.ref.itemType.Unsupported? && c.additions == OneByteFor(c.ref.itemType)
  }

  lemma OneIsGated(g: Gated, ref: Ref, x: string)
    ensures var h := GateItem(OnlyFetches(x), g, ref);
      && (ref.id != x ==> h == g.(deferred := g.deferred + [Deferral(ref, FetchFailure)]))
      && (ref.id == x && ref.itemType.Unsupported? ==>
            h == g.(rejected := g.rejected + [Rejection(ref, GateFailed(UnsupportedType))]))
      && (ref.id == x && !ref.itemType.Unsupported? ==>
            h == g.(candidates := g.candidates + [Candidate(ref, OneByteFor(ref.itemType))]))
  {
    if !ref.itemType.Unsupported? { OneByteGated(ref.itemType); }
  }

  /** Of `items`, the supported occurrences of x are candidates, and nothing else is. */
  ghost predicate GatesX(g: Gated, items: seq<Ref>, x: string) {
    && g.alreadyDone == []
    && (forall c :: c in g.candidates ==> FromX(c, x))
    && (forall d :: d in g.deferred ==> d.ref.id != x)
    && Count(CandidateId, g.candidates, x) == Count(RefId, Supported(items), x)
  }

  lemma CandidateIsAdded(g: Gated, before: seq<Ref>, ref: Ref, x: string)
    requires GatesX(g, before, x) && ref.id == x && !ref.itemType.Unsupported?
    ensures GatesX(g.(candidates := g.candidates + [Candidate(ref, OneByteFor(ref.itemType))]), before + [ref], x)
  {
    SupportedPush(before, ref);
    CountPush(RefId, Supported(before), ref, x);
    CountPush(CandidateId, g.candidates, Candidate(ref, OneByteFor(ref.itemType)), x);
  }

  lemma OtherIsNotAdded(g: Gated, before: seq<Ref>, ref: Ref, x: string)
    requires GatesX(g, before, x) && (ref.id != x || ref.itemType.Unsupported?)
    ensures Count(CandidateId, g.candidates, x) == Count(RefId, Supported(before + [ref]), x)
  {
    SupportedPush(before, ref);
    CountPush(RefId, Supported(before), ref, x);
  }

  lemma OneMoreIsGated(g: Gated, before: seq<Ref>, ref: Ref, x: string)
    requires GatesX(g, before, x)
    ensures GatesX(GateItem(OnlyFetches(x), g, ref), before + [ref], x)
  {
    OneIsGated(g, ref, x);
    if ref.id == x && !ref.itemType.Unsupported? {
      CandidateIsAdded(g, before, ref, x);
    } else {
      OtherIsNotAdded(g, before, ref, x);
    }
  }

  lemma {:induction false} OnlyXIsGated(items: seq<Ref>, x: string)
    ensures GatesX(GateAll(OnlyFetches(x), items), items, x)
  {
    if items != [] {
      var before, ref := items[..|items| - 1], items[|items| - 1];
      OnlyXIsGated(before, x);
      assert items == before + [ref];
      OneMoreIsGated(GateAll(OnlyFetches(x), before), before, ref, x);
    }
  }

  lemma {:induction false} NoneCounted<T>(id: T -> string, s: seq<T>, x: string)
    requires forall e :: e in s ==> id(e) != x
    ensures Count(id, s, x) == 0
  {
    if s != [] { NoneCounted(id, s[..|s| - 1], x); }
  }

  /** With a budget of one byte the first candidate is chosen and all others are put off. */
  lemma {:induction false} FirstIsChosen(cs: seq<Candidate>, x: string)
    requires cs != [] && forall c :: c in cs ==> FromX(c, x)
    ensures var m := MergeAll(PlainCodec(), map[], 1, cs);
      m.chosen == [cs[0]] && m.merged == cs[0].additions && m.bytes == 1 && m.present == []
    decreases |cs|
  {
    var n := |cs| - 1;
    assert cs[n] in cs;
    OneByteSize(cs[n].ref.itemType);
    assert KeyOf(cs[n].ref.itemType) in cs[n].additions;
    if n > 0 {
      FirstIsChosen(cs[..n], x);
    } else {
      assert MergeAll(PlainCodec(), map[], 1, cs[..0]) == Merge(map[], [], 0, [], []);
      assert map[] + cs[0].additions == cs[0].additions;
    }
  }

  lemma {:induction false} AllArePicked(cs: seq<Candidate>, x: string)
    requires forall c :: c in cs ==> c.ref.id == x
    ensures Picked(cs, {x}) == cs
  {
    if cs != [] {
      AllArePicked(cs[..|cs| - 1], x);
      assert cs[|cs| - 1] in cs && cs == cs[..|cs| - 1] + [cs[|cs| - 1]];
    }
  }

  lemma {:induction false} AllAreBlamed(build: Additions -> bool, cs: seq<Candidate>)
    requires forall c :: c in cs ==> !build(c.additions)
    ensures Bisect(build, cs).survivors == [] && |Bisect(build, cs).blamed| == |cs|
  {
    if cs != [] {
      AllAreBlamed(build, cs[..|cs| - 1]);
      assert cs[|cs| - 1] in cs;
    }
  }

  lemma PlanRejectsAll(cs: seq<Candidate>, x: string)
    requires cs != [] && forall c :: c in cs ==> FromX(c, x)
    ensures var env := OnlyFetches(x); var b := Bisect(env.build, cs);
      PlanWrite(env, true, cs, cs[0].additions, [cs[0]]) == Plan(None, [], b.blamed, []) && b.survivors == []
  {
    var env := OnlyFetches(x);
    assert cs[0] in cs && KeyOf(cs[0].ref.itemType) in cs[0].additions;
    assert IdsOf([cs[0]]) == {x} by { assert cs[0] in [cs[0]]; }
    AllArePicked(cs, x);
    forall c | c in cs ensures !env.build(c.additions) { assert KeyOf(c.ref.itemType) in c.additions; }
    AllAreBlamed(env.build, cs);
  }

  lemma BatchOfOnlyX(items: seq<Ref>, x: string) returns (g: Gated, m: Merge, p: Plan)
    requires Count(RefId, Supported(items), x) >= 1
    ensures g == GateAll(OnlyFetches(x), items) && g.alreadyDone == []
    ensures Count(CandidateId, g.candidates, x) == Count(RefId, Supported(items), x) && Count(DeferralId, g.deferred, x) == 0
    ensures m == MergeAll(PlainCodec(), map[], 1, g.candidates) && Count(CandidateId, m.chosen, x) == 1 && m.present == []
    ensures p == Plan(None, [], Bisect(OnlyFetches(x).build, g.candidates).blamed, [])
    ensures Bisect(OnlyFetches(x).build, g.candidates).survivors == []
    ensures Batch(OnlyFetches(x), items, 1) == Conclude(OnlyFetches(x), g, m.present, m.deferred, p)
  {
    var env := OnlyFetches(x);
    g := GateAll(env, items);
    OnlyXIsGated(items, x);
    NoneCounted(DeferralId, g.deferred, x);
    assert g.candidates != [];
    m := MergeAll(PlainCodec(), map[], 1, g.candidates);
    FirstIsChosen(g.candidates, x);
    CountPush(CandidateId, [], g.candidates[0], x);
    assert [] + [g.candidates[0]] == [g.candidates[0]];
    assert g.candidates[0] in g.candidates;
    PlanRejectsAll(g.candidates, x);
    p := PlanWrite(env, true, g.candidates, m.merged, m.chosen);
  }

  /** Bisection goes by id: where the merged update does not build, every occurrence of a repeated id
      is rejected, the ones that were put off included. */
  lemma RepeatedIdHasSeveralFates(items: seq<Ref>, x: string)
    requires Count(RefId, Supported(items), x) >= 1
    ensures Batch(OnlyFetches(x), items, 1).Returned?
    ensures Fates(Batch(OnlyFetches(x), items, 1).result, x) == Count(RefId, items, x) + Count(RefId, Supported(items), x) - 1
  {
    var env := OnlyFetches(x);
    var g, m, p := BatchOfOnlyX(items, x);
    GatePartition(env, items, x);
    ConcludePartition(env, g, m, p, x);
    MergePartition(PlainCodec(), map[], 1, g.candidates, x);
    BisectPartition(env.build, g.candidates, x);
  }

  /** Every item of a batch has one fate in all surroundings if and only if no id is repeated among
      the items of supported types. */
  lemma OneFateExactly(items: seq<Ref>)
    ensures (forall env, maxBytes, x :: Batch(env, items, maxBytes).Returned? ==>
               Fates(Batch(env, items, maxBytes).result, x) == Count(RefId, items, x))
      <==> DistinctIds(items)
  {
    if DistinctIds(items) {
      forall env, maxBytes, x | Batch(env, items, maxBytes).Returned?
        ensures Fates(Batch(env, items, maxBytes).result, x) == Count(RefId, items, x)
      {
        EveryItemHasOneFate(env, items, maxBytes, x);
      }
    } else {
      var x :| Count(RefId, Supported(items), x) > 1;
      RepeatedIdHasSeveralFates(items, x);
      assert Fates(Batch(OnlyFetches(x), items, 1).result, x) != Count(RefId, items, x);
    }
  }
}
