/** Concurrent sends of J41Agent over one set of coins. */
module Wallet {
  import opened Prelude
  import opened Payment
  import opened FifoSet

  const MAX_SPENT_UTXOS := 10000
  const MAX_PENDING_CHANGE := 1000

  // ---- the bookkeeping of one agent ----

  function OutpointSet(us: seq<Utxo>): set<Outpoint> { set u | u in us :: u.outpoint }

  function PrunePending(pending: seq<Utxo>, spent: seq<Outpoint>, apiKeys: set<Outpoint>): seq<Utxo> {
    if pending == [] then []
    else
      var kept, u := PrunePending(pending[..|pending| - 1], spent, apiKeys), pending[|pending| - 1];
      if u.outpoint !in spent && u.outpoint !in apiKeys then kept + [u] else kept
  }

  /** The coins of a list that are not spent, each outpoint once. */
  function Offer(us: seq<Utxo>, spent: seq<Outpoint>): seq<Utxo> {
    if us == [] then []
    else
      var merged, u := Offer(us[..|us| - 1], spent), us[|us| - 1];
      if u.outpoint in spent || u.outpoint in OutpointSet(merged) then merged else merged + [u]
  }

  class Coins {
    /** Insertion order of the spent set. */
    var spent: seq<Outpoint>
    var pendingChange: seq<Utxo>

    constructor ()
      ensures spent == [] && pendingChange == []
    {
      spent, pendingChange := [], [];
    }

    method MergeUtxos(apiUtxos: seq<Utxo>) returns (merged: seq<Utxo>)
      modifies this
      ensures spent == old(spent)
      ensures pendingChange == PrunePending(old(pendingChange), spent, OutpointSet(apiUtxos))
      ensures merged == Offer(apiUtxos + pendingChange, spent)
    {
      var apiKeys := OutpointSet(apiUtxos);
      var kept := [];
      for i := 0 to |pendingChange|
        invariant kept == PrunePending(pendingChange[..i], spent, apiKeys)
      {
        assert pendingChange[..i + 1][..i] == pendingChange[..i];
        var u := pendingChange[i];
        if u.outpoint !in spent && u.outpoint !in apiKeys { kept := kept + [u]; }
      }
      assert pendingChange[..|pendingChange|] == pendingChange;
      pendingChange := kept;
      merged := CollectOffer(apiUtxos + pendingChange);
    }

    method CollectOffer(all: seq<Utxo>) returns (merged: seq<Utxo>)
      ensures merged == Offer(all, spent)
    {
      var seen: set<Outpoint> := {};
      merged := [];
      for i := 0 to |all|
        invariant merged == Offer(all[..i], spent) && seen == OutpointSet(merged)
      {
        assert all[..i + 1][..i] == all[..i];
        var k := all[i].outpoint;
        if k in spent || k in seen { continue; }
        seen := seen + {k};
        assert OutpointSet(merged + [all[i]]) == OutpointSet(merged) + {k};
        merged := merged + [all[i]];
      }
      assert all[..|all|] == all;
    }

    /** Marks a transaction's inputs before it is broadcast; sendCurrency also evicts. */
    method MarkSpent(inputs: seq<Utxo>, evict: bool)
      modifies this`spent
      ensures spent == if evict then Newest(AddAll(old(spent), Outpoints(inputs)), MAX_SPENT_UTXOS)
                       else AddAll(old(spent), Outpoints(inputs))
    {
      var marks := Outpoints(inputs);
      for i := 0 to |marks|
        invariant spent == AddAll(old(spent), marks[..i])
      {
        assert marks[..i + 1][..i] == marks[..i];
        if marks[i] !in spent { spent := spent + [marks[i]]; }
      }
      assert marks[..|marks|] == marks;
      if evict {
        ghost var full := spent;
        while |spent| > MAX_SPENT_UTXOS
          invariant |spent| <= |full| && spent == full[|full| - |spent|..]
          invariant |full| > MAX_SPENT_UTXOS ==> |spent| >= MAX_SPENT_UTXOS
          invariant |full| <= MAX_SPENT_UTXOS ==> spent == full
        {
          spent := spent[1..];
        }
      }
    }

    /** Remembers the change of a broadcast transaction under its real txid. */
    method RecordChange(change: Utxo, evict: bool)
      modifies this`pendingChange
      ensures pendingChange == if evict then Newest(old(pendingChange) + [change], MAX_PENDING_CHANGE)
                               else old(pendingChange) + [change]
    {
      pendingChange := pendingChange + [change];
      if evict {
        ghost var full := pendingChange;
        while |pendingChange| > MAX_PENDING_CHANGE
          invariant |pendingChange| <= |full| && pendingChange == full[|full| - |pendingChange|..]
          invariant |full| > MAX_PENDING_CHANGE ==> |pendingChange| >= MAX_PENDING_CHANGE
          invariant |full| <= MAX_PENDING_CHANGE ==> pendingChange == full
        {
          pendingChange := pendingChange[1..];
        }
      }
    }

    method Stop()
      modifies this
      ensures spent == [] && pendingChange == []
    {
      spent, pendingChange := [], [];
    }
  }

  // ---- interleaved sends ----

  /** A call of sendCurrency (single) or sendMultiPayment, after rounding to satoshis. */
  datatype Request = Request(single: bool, payments: seq<int>, fee: int, source: Option<string>, changeAddress: string)

  /** Where a send stands at its awaits: waiting in the chain, coins merged, inputs marked, over. */
  datatype Phase = Queued | Fetched(offered: seq<Utxo>) | Marked(tx: Tx) | Settled

  datatype Send = Send(request: Request, phase: Phase)

  /** `marks` and `txs` log the inputs marked and the transactions built since the last stop. */
  datatype Agent = Agent(sends: seq<Send>, spent: seq<Outpoint>, pendingChange: seq<Utxo>, marks: seq<Outpoint>, txs: seq<Tx>)

  const Fresh0 := Agent([], [], [], [], [])

  datatype Event =
    | Call(request: Request)
    | Fetch(i: nat, api: seq<Utxo>)
    | Build(i: nat)
    | Broadcast(i: nat, txid: Option<string>)
    | Fail(i: nat)
    | Stop

  function FromSource(us: seq<Utxo>, source: Option<string>): seq<Utxo> {
    if us == [] || source.None? then us
    else
      var kept, u := FromSource(us[..|us| - 1], source), us[|us| - 1];
      if u.address == source.value then kept + [u] else kept
  }

  function PositiveOnly(us: seq<Utxo>): seq<Utxo> {
    if us == [] then []
    else
      var kept, u := PositiveOnly(us[..|us| - 1]), us[|us| - 1];
      if u.satoshis > 0 then kept + [u] else kept
  }

  function SetPhase(a: Agent, i: nat, p: Phase): Agent
    requires i < |a.sends|
  {
    a.(sends := a.sends[i := a.sends[i].(phase := p)])
  }

  /** serializeSend: a send starts once the send before it has settled, however it ended. */
  predicate MayStart(a: Agent, i: nat) {
    i < |a.sends| && a.sends[i].phase == Queued && (i == 0 || a.sends[i - 1].phase == Settled)
  }

  predicate Enabled(a: Agent, e: Event) {
    match e
    case Call(_) => true
    case Fetch(i, _) => MayStart(a, i)
    case Build(i) => i < |a.sends| && a.sends[i].phase.Fetched?
    case Broadcast(i, _) => i < |a.sends| && a.sends[i].phase.Marked?
    case Fail(i) => MayStart(a, i) || (i < |a.sends| && (a.sends[i].phase.Fetched? || a.sends[i].phase.Marked?))
    case Stop => true
  }

  function ChangeOf(tx: Tx, txid: string, address: string): Option<Utxo> {
    if tx.change.Some? then Some(Utxo(Outpoint(txid, tx.ChangeVout()), tx.change.value, address)) else None
  }

  /** One step, up to the next await. */
  function Next(a: Agent, e: Event): Agent
    requires Enabled(a, e)
  {
    match e
    case Call(request) => a.(sends := a.sends + [Send(request, Queued)])
    case Fetch(i, api) =>
      var positive := PositiveOnly(api);
      var pending := PrunePending(a.pendingChange, a.spent, OutpointSet(positive));
      var offered := FromSource(Offer(positive + pending, a.spent), a.sends[i].request.source);
      SetPhase(a.(pendingChange := pending), i, if offered == [] then Settled else Fetched(offered))
    case Build(i) =>
      var r := a.sends[i].request;
      (match BuildTx(r.payments, a.sends[i].phase.offered, r.fee)
       case Err(_) => SetPhase(a, i, Settled)
       case Ok(tx) =>
         var marked := AddAll(a.spent, Outpoints(tx.inputs));
         SetPhase(a.(spent := if r.single then Newest(marked, MAX_SPENT_UTXOS) else marked,
                     marks := a.marks + Outpoints(tx.inputs),
                     txs := a.txs + [tx]), i, Marked(tx)))
    case Broadcast(i, txid) =>
      var change := if txid.Some? then ChangeOf(a.sends[i].phase.tx, txid.value, a.sends[i].request.changeAddress) else None;
      if change.None? then SetPhase(a, i, Settled)
      else
        var pending := a.pendingChange + [change.value];
        SetPhase(a.(pendingChange := if a.sends[i].request.single then Newest(pending, MAX_PENDING_CHANGE) else pending),
                 i, Settled)
    case Fail(i) => SetPhase(a, i, Settled)
    case Stop => a.(spent := [], pendingChange := [], marks := [], txs := [])
  }

  /** Every state some interleaving of the events leads to. */
  function Runs(events: seq<Event>): Option<Agent> {
    if events == [] then Some(Fresh0)
    else
      match Runs(events[..|events| - 1])
      case None => None
      case Some(a) => if Enabled(a, events[|events| - 1]) then Some(Next(a, events[|events| - 1])) else None
  }

  // ---- what every interleaving keeps ----

  predicate Active(p: Phase) { p.Fetched? || p.Marked? }

  /** The sends before a started one are over, those after it have not started. */
  predicate Serialized(sends: seq<Send>) {
    forall i, j :: 0 <= i < j < |sends| ==> sends[i].phase == Settled || sends[j].phase == Queued
  }

  predicate DistinctOutpoints(us: seq<Utxo>) { forall i, j :: 0 <= i < j < |us| ==> us[i].outpoint != us[j].outpoint }

  /** No coin on offer twice, none of them marked as spent. */
  predicate CleanOffer(us: seq<Utxo>, spent: seq<Outpoint>) {
    DistinctOutpoints(us) && forall u :: u in us ==> u.outpoint !in spent
  }

  /** No transaction has one outpoint twice. */
  predicate NoDuplicateInputs(txs: seq<Tx>) { forall tx :: tx in txs ==> DistinctOutpoints(tx.inputs) }

  predicate OffersClean(a: Agent) {
    forall i :: 0 <= i < |a.sends| && a.sends[i].phase.Fetched? ==> CleanOffer(a.sends[i].phase.offered, a.spent)
  }

  ghost predicate Inv(a: Agent) {
    Serialized(a.sends) && IsTail(a.spent, a.marks, MAX_SPENT_UTXOS) && Spaced(a.marks, MAX_SPENT_UTXOS) && OffersClean(a) && NoDuplicateInputs(a.txs)
  }

  lemma {:induction false} OfferIsClean(us: seq<Utxo>, spent: seq<Outpoint>)
    ensures CleanOffer(Offer(us, spent), spent)
    ensures forall u :: u in Offer(us, spent) ==> u in us
    ensures OutpointSet(Offer(us, spent)) == OutpointSet(us) - (set o | o in spent)
  {
    if us != [] {
      var before, u := us[..|us| - 1], us[|us| - 1];
      OfferIsClean(before, spent);
      assert us == before + [u];
      assert OutpointSet(us) == OutpointSet(before) + {u.outpoint};
      var merged := Offer(before, spent);
      if u.outpoint !in spent && u.outpoint !in OutpointSet(merged) {
        assert OutpointSet(merged + [u]) == OutpointSet(merged) + {u.outpoint};
        forall v | v in merged ensures v.outpoint != u.outpoint { assert v.outpoint in OutpointSet(merged); }
      }
    }
  }

  lemma {:induction false} SourceKeepsClean(us: seq<Utxo>, source: Option<string>, spent: seq<Outpoint>)
    requires CleanOffer(us, spent)
    ensures CleanOffer(FromSource(us, source), spent)
    ensures forall u :: u in FromSource(us, source) ==> u in us
  {
    if us != [] && source.Some? {
      var before := us[..|us| - 1];
      var u := us[|us| - 1];
      SourceKeepsClean(before, source, spent);
      assert us == before + [u];
      forall v | v in FromSource(before, source) ensures v.outpoint != u.outpoint {
        var k :| 0 <= k < |before| && before[k] == v;
        assert us[k] == v;
      }
    }
  }

  lemma SelectionKeepsDistinct(part: seq<Utxo>, whole: seq<Utxo>)
    requires multiset(part) <= multiset(whole) && DistinctOutpoints(whole)
    ensures DistinctOutpoints(part)
  {
    forall i, j | 0 <= i < j < |part| ensures part[i].outpoint != part[j].outpoint {
      assert part[i] in multiset(part) && part[j] in multiset(part);
      assert part[i] in whole && part[j] in whole;
      if part[i] == part[j] {
        TwiceInMultiset(part, i, j);
        DistinctMultiplicity(whole, part[i]);
      }
    }
  }

  /** The inputs of a built transaction are fresh marks. */
  lemma InputsAreFresh(payments: seq<int>, offered: seq<Utxo>, fee: int, spent: seq<Outpoint>)
    requires CleanOffer(offered, spent) && BuildTx(payments, offered, fee).Ok?
    ensures var tx := BuildTx(payments, offered, fee).value;
      && DistinctOutpoints(tx.inputs) && Distinct(Outpoints(tx.inputs))
      && (forall o :: o in Outpoints(tx.inputs) ==> o !in spent)
      && AddAll(spent, Outpoints(tx.inputs)) == spent + Outpoints(tx.inputs)
  {
    SelectedAreOffered(offered, Sum(payments) + fee);
    var inputs := BuildTx(payments, offered, fee).value.inputs;
    SelectionKeepsDistinct(inputs, offered);
    forall o | o in Outpoints(inputs) ensures o !in spent {
      var i :| 0 <= i < |inputs| && Outpoints(inputs)[i] == o;
      assert inputs[i] in offered;
    }
    AddAllAppends(spent, Outpoints(inputs));
  }

  /** Moving a started send on, or starting the next one, keeps the sends serialized. */
  lemma Advance(a: Agent, i: nat, p: Phase)
    requires Serialized(a.sends) && i < |a.sends| && (MayStart(a, i) || Active(a.sends[i].phase)) && p != Queued
    ensures Serialized(SetPhase(a, i, p).sends)
    ensures forall j :: 0 <= j < |a.sends| && j != i ==> !Active(a.sends[j].phase)
  {
    if MayStart(a, i) && i > 0 {
      assert forall j :: 0 <= j < i - 1 ==> a.sends[j].phase == Settled || a.sends[i - 1].phase == Queued;
    }
  }

  lemma MarksStaySpaced(payments: seq<int>, offered: seq<Utxo>, fee: int, spent: seq<Outpoint>, marks: seq<Outpoint>)
    requires IsTail(spent, marks, MAX_SPENT_UTXOS) && Spaced(marks, MAX_SPENT_UTXOS)
    requires CleanOffer(offered, spent) && BuildTx(payments, offered, fee).Ok?
    ensures var inputs := BuildTx(payments, offered, fee).value.inputs;
      var marked, log := AddAll(spent, Outpoints(inputs)), marks + Outpoints(inputs);
      && DistinctOutpoints(inputs)
      && IsTail(marked, log, MAX_SPENT_UTXOS)
      && IsTail(Newest(marked, MAX_SPENT_UTXOS), log, MAX_SPENT_UTXOS)
      && Spaced(log, MAX_SPENT_UTXOS)
  {
    var inputs := BuildTx(payments, offered, fee).value.inputs;
    InputsAreFresh(payments, offered, fee, spent);
    InsertsStaySpaced(spent, marks, Outpoints(inputs), MAX_SPENT_UTXOS);
    TailAfterInsert(spent, marks, Outpoints(inputs), MAX_SPENT_UTXOS);
  }

  lemma MarkedKeepsInv(a: Agent, i: nat, tx: Tx, spent: seq<Outpoint>, marks: seq<Outpoint>)
    requires Inv(a) && i < |a.sends| && a.sends[i].phase.Fetched?
    requires IsTail(spent, marks, MAX_SPENT_UTXOS) && Spaced(marks, MAX_SPENT_UTXOS) && DistinctOutpoints(tx.inputs)
    ensures Inv(SetPhase(a.(spent := spent, marks := marks, txs := a.txs + [tx]), i, Marked(tx)))
  {
    Advance(a, i, Marked(tx));
    var b := SetPhase(a.(spent := spent, marks := marks, txs := a.txs + [tx]), i, Marked(tx));
    assert b.sends == SetPhase(a, i, Marked(tx)).sends;
    assert OffersClean(b);
    assert NoDuplicateInputs(b.txs);
  }

  lemma BuildKeepsInv(a: Agent, i: nat)
    requires Inv(a) && Enabled(a, Build(i))
    ensures Inv(Next(a, Build(i)))
  {
    var r, offered := a.sends[i].request, a.sends[i].phase.offered;
    if BuildTx(r.payments, offered, r.fee).Ok? {
      var tx := BuildTx(r.payments, offered, r.fee).value;
      var marked := AddAll(a.spent, Outpoints(tx.inputs));
      MarksStaySpaced(r.payments, offered, r.fee, a.spent, a.marks);
      MarkedKeepsInv(a, i, tx, if r.single then Newest(marked, MAX_SPENT_UTXOS) else marked, a.marks + Outpoints(tx.inputs));
    } else {
      Advance(a, i, Settled);
    }
  }

  lemma FetchKeepsInv(a: Agent, i: nat, api: seq<Utxo>)
    requires Inv(a) && Enabled(a, Fetch(i, api))
    ensures Inv(Next(a, Fetch(i, api)))
  {
    var positive := PositiveOnly(api);
    var pending := PrunePending(a.pendingChange, a.spent, OutpointSet(positive));
    OfferIsClean(positive + pending, a.spent);
    SourceKeepsClean(Offer(positive + pending, a.spent), a.sends[i].request.source, a.spent);
    Advance(a, i, Next(a, Fetch(i, api)).sends[i].phase);
  }

  lemma StepKeepsInv(a: Agent, e: Event)
    requires Inv(a) && Enabled(a, e)
    ensures Inv(Next(a, e))
  {
    match e
    case Call(_) =>
    case Fetch(i, api) => FetchKeepsInv(a, i, api);
    case Build(i) => BuildKeepsInv(a, i);
    case Broadcast(i, _) => Advance(a, i, Settled);
    case Fail(i) => Advance(a, i, Settled);
    case Stop =>
      var none: seq<Outpoint> := [];
      assert none[0..] == none;
  }

  /** Under every interleaving of concurrent sends, failed ones included, at most one send is
      between its fetch and its end, no transaction spends an outpoint twice, and since the last
      stop an outpoint is marked again only after MAX_SPENT_UTXOS newer ones. */
  lemma {:induction false} NoInputReuse(events: seq<Event>)
    requires Runs(events).Some?
    ensures var a := Runs(events).value;
      && Inv(a)
      && (forall i, j :: 0 <= i < j < |a.sends| ==> !(Active(a.sends[i].phase) && Active(a.sends[j].phase)))
  {
    if events != [] {
      NoInputReuse(events[..|events| - 1]);
      StepKeepsInv(Runs(events[..|events| - 1]).value, events[|events| - 1]);
    }
  }
}
