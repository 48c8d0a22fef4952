/** What each step of a send does, told by the coins and outputs themselves. */
module WalletLaws {
  import opened Prelude
  import opened Payment
  import opened PaymentLaws
  import opened FifoSet
  import opened Wallet
  import opened WalletValue

  // ---- what a fetch offers ----

  /** u meets p, and no coin of its outpoint that does stands before it. */
  ghost predicate First(us: seq<Utxo>, p: Utxo -> bool, u: Utxo) {
    exists k :: 0 <= k < |us| && us[k] == u && p(u) && forall j :: 0 <= j < k ==> !p(us[j]) || us[j].outpoint != u.outpoint
  }

  predicate Positive(u: Utxo) { u.satoshis > 0 }
  predicate Any(u: Utxo) { true }

  /** The platform lists the outpoint with a positive value. */
  predicate Confirmed(api: seq<Utxo>, o: Outpoint) { exists u :: u in api && u.satoshis > 0 && u.outpoint == o }

  /** A coin of the platform's list or, where that does not have it yet, of the pending change, not
      spent and of the source address if one is given. */
  ghost predicate Offerable(a: Agent, api: seq<Utxo>, source: Option<string>, u: Utxo) {
    && u.outpoint !in a.spent && (source.Some? ==> u.address == source.value)
    && (First(api, Positive, u) || (First(a.pendingChange, Any, u) && !Confirmed(api, u.outpoint)))
  }

  lemma FirstPush(us: seq<Utxo>, p: Utxo -> bool, v: Utxo, u: Utxo)
    ensures First(us + [v], p, u) <==>
      First(us, p, u) || (u == v && p(v) && forall w :: w in us && p(w) ==> w.outpoint != v.outpoint)
  {
    var all, n := us + [v], |us|;
    if First(all, p, u) {
      var k :| 0 <= k < |all| && all[k] == u && p(u) && forall j :: 0 <= j < k ==> !p(all[j]) || all[j].outpoint != u.outpoint;
      if k < n {
        assert us[k] == u && forall j :: 0 <= j < k ==> us[j] == all[j];
      } else {
        forall w | w in us && p(w) ensures w.outpoint != v.outpoint {
          var j :| 0 <= j < n && us[j] == w;
          assert all[j] == w;
        }
      }
    }
    if First(us, p, u) {
      var k :| 0 <= k < n && us[k] == u && p(u) && forall j :: 0 <= j < k ==> !p(us[j]) || us[j].outpoint != u.outpoint;
      assert all[k] == u && forall j :: 0 <= j < k ==> all[j] == us[j];
    }
    if u == v && p(v) && forall w :: w in us && p(w) ==> w.outpoint != v.outpoint {
      assert all[n] == u && forall j :: 0 <= j < n ==> all[j] == us[j] && us[j] in us;
    }
  }

  lemma {:induction false} OfferExactly(us: seq<Utxo>, spent: seq<Outpoint>, u: Utxo)
    ensures u in Offer(us, spent) <==> First(us, Any, u) && u.outpoint !in spent
  {
    if us != [] {
      var before, v := us[..|us| - 1], us[|us| - 1];
      OfferExactly(before, spent, u);
      OfferIsClean(before, spent);
      FirstPush(before, Any, v, u);
      assert us == before + [v];
      assert v.outpoint in OutpointSet(before) <==> exists w :: w in before && w.outpoint == v.outpoint;
    }
  }

  lemma {:induction false} FirstPositive(api: seq<Utxo>, u: Utxo)
    ensures First(PositiveOnly(api), Any, u) <==> First(api, Positive, u)
    ensures forall w :: w in PositiveOnly(api) <==> w in api && w.satoshis > 0
  {
    if api != [] {
      var before, v := api[..|api| - 1], api[|api| - 1];
      FirstPositive(before, u);
      assert api == before + [v];
      FirstPush(before, Positive, v, u);
      FirstPush(PositiveOnly(before), Any, v, u);
    }
  }

  lemma {:induction false} FirstUnpruned(pending: seq<Utxo>, spent: seq<Outpoint>, keys: set<Outpoint>, u: Utxo)
    requires u.outpoint !in spent
    ensures First(PrunePending(pending, spent, keys), Any, u) <==> First(pending, Any, u) && u.outpoint !in keys
  {
    if pending != [] {
      var before, v := pending[..|pending| - 1], pending[|pending| - 1];
      FirstUnpruned(before, spent, keys, u);
      PruneFacts(before, spent, keys);
      assert pending == before + [v];
      FirstPush(before, Any, v, u);
      FirstPush(PrunePending(before, spent, keys), Any, v, u);
    }
  }

  lemma {:induction false} FirstOfBoth(a: seq<Utxo>, b: seq<Utxo>, u: Utxo)
    ensures First(a + b, Any, u) <==> First(a, Any, u) || (First(b, Any, u) && u.outpoint !in OutpointSet(a))
  {
    if b == [] {
      assert a + b == a;
    } else {
      var before, v := b[..|b| - 1], b[|b| - 1];
      FirstOfBoth(a, before, u);
      assert a + b == a + before + [v] && b == before + [v];
      FirstPush(a + before, Any, v, u);
      FirstPush(before, Any, v, u);
    }
  }

  lemma {:induction false} FromSourceExactly(us: seq<Utxo>, source: Option<string>, u: Utxo)
    ensures u in FromSource(us, source) <==> u in us && (source.Some? ==> u.address == source.value)
  {
    if us != [] && source.Some? {
      FromSourceExactly(us[..|us| - 1], source, u);
      assert us == us[..|us| - 1] + [us[|us| - 1]];
    }
  }

  lemma MergedExactly(a: Agent, api: seq<Utxo>, source: Option<string>, u: Utxo)
    ensures var positive := PositiveOnly(api);
      var pending := PrunePending(a.pendingChange, a.spent, OutpointSet(positive));
      u in FromSource(Offer(positive + pending, a.spent), source) <==> Offerable(a, api, source, u)
  {
    var positive := PositiveOnly(api);
    var pending := PrunePending(a.pendingChange, a.spent, OutpointSet(positive));
    FromSourceExactly(Offer(positive + pending, a.spent), source, u);
    OfferExactly(positive + pending, a.spent, u);
    FirstOfBoth(positive, pending, u);
    FirstPositive(api, u);
    assert u.outpoint in OutpointSet(positive) <==> Confirmed(api, u.outpoint);
    if u.outpoint !in a.spent { FirstUnpruned(a.pendingChange, a.spent, OutpointSet(positive), u); }
  }

  /** A fetch offers each offerable coin, once, and nothing else, or ends the send if there is none;
      change that is spent or confirmed is no longer pending, all other change is. */
  lemma FetchOffersExactly(a: Agent, i: nat, api: seq<Utxo>)
    requires Enabled(a, Fetch(i, api))
    ensures var v := Next(a, Fetch(i, api)); var source := a.sends[i].request.source;
      && (if exists u :: Offerable(a, api, source, u)
          then v.sends[i].phase.Fetched? && DistinctOutpoints(v.sends[i].phase.offered)
               && forall u :: u in v.sends[i].phase.offered <==> Offerable(a, api, source, u)
          else v.sends[i].phase == Settled)
      && (forall u :: u in v.pendingChange <==> u in a.pendingChange && u.outpoint !in a.spent && !Confirmed(api, u.outpoint))
      && v.spent == a.spent
  {
    var source := a.sends[i].request.source;
    var positive := PositiveOnly(api);
    var pending := PrunePending(a.pendingChange, a.spent, OutpointSet(positive));
    var offered := FromSource(Offer(positive + pending, a.spent), source);
    forall u ensures u in offered <==> Offerable(a, api, source, u) { MergedExactly(a, api, source, u); }
    OfferIsClean(positive + pending, a.spent);
    SourceKeepsClean(Offer(positive + pending, a.spent), source, a.spent);
    if offered != [] { assert offered[0] in offered; }
    PruneFacts(a.pendingChange, a.spent, OutpointSet(positive));
    forall o ensures o in OutpointSet(positive) <==> Confirmed(api, o) { ConfirmedIsPositive(api, o); }
  }

  lemma ConfirmedIsPositive(api: seq<Utxo>, o: Outpoint)
    ensures o in OutpointSet(PositiveOnly(api)) <==> Confirmed(api, o)
  {
    FirstPositive(api, Utxo(o, 0, ""));
  }

  // ---- what a build marks ----

  /** A bounded memory after more was added: nothing but the oldest is dropped, and only if it evicts
      and then down to its cap. */
  ghost predicate Remembers<T(!new)>(before: seq<T>, more: seq<T>, cap: nat, evicts: bool, now: seq<T>) {
    exists dropped: seq<T> :: dropped + now == before + more
      && (dropped != [] ==> evicts && |now| == cap) && (evicts ==> |now| <= cap)
  }

  lemma NewestRemembers<T(!new)>(before: seq<T>, more: seq<T>, cap: nat, evicts: bool)
    ensures Remembers(before, more, cap, evicts, if evicts then Newest(before + more, cap) else before + more)
  {
    var all := before + more;
    var dropped: seq<T> := if evicts && |all| > cap then all[..|all| - cap] else [];
    assert dropped + (if evicts then Newest(all, cap) else all) == all;
  }

  /** A send builds exactly if the coins offered are worth its payments and the fee; then it pays
      those and marks each of its inputs, and a single send forgets the oldest marks beyond 10000.
      Otherwise it is over and marks nothing. */
  lemma BuildMarksExactly(a: Agent, i: nat)
    requires Inv(a) && Enabled(a, Build(i))
    ensures var r, offered, v := a.sends[i].request, a.sends[i].phase.offered, Next(a, Build(i));
      && v.pendingChange == a.pendingChange
      && (if Affordable(offered, Sum(r.payments) + r.fee)
          then v.sends[i].phase.Marked? && Pays(v.sends[i].phase.tx, r.payments, offered, r.fee)
               && Remembers(a.spent, Outpoints(v.sends[i].phase.tx.inputs), 10000, r.single, v.spent)
          else v.sends[i].phase == Settled && v.spent == a.spent)
  {
    var r, offered := a.sends[i].request, a.sends[i].phase.offered;
    BuiltIsBuiltOrShort(r.payments, offered, r.fee);
    if BuildTx(r.payments, offered, r.fee).Ok? {
      var tx := BuildTx(r.payments, offered, r.fee).value;
      InputsAreFresh(r.payments, offered, r.fee, a.spent);
      NewestRemembers(a.spent, Outpoints(tx.inputs), MAX_SPENT_UTXOS, r.single);
    }
  }

  // ---- what a broadcast adds to the pending change ----

  datatype Output = Output(address: string, satoshis: int)

  /** The outputs in their order: each payment to its recipient, then the change. */
  function Outputs(tx: Tx, recipients: seq<string>, changeAddress: string): (os: seq<Output>)
    requires |recipients| == |tx.payments|
    ensures |os| == |recipients| + if tx.change.Some? then 1 else 0
    ensures forall k :: 0 <= k < |recipients| ==> os[k] == Output(recipients[k], tx.payments[k])
  {
    seq(|recipients|, k requires 0 <= k < |recipients| => Output(recipients[k], tx.payments[k]))
    + if tx.change.Some? then [Output(changeAddress, tx.change.value)] else []
  }

  /** c names an output of the broadcast transaction that is no payment, pays the change address and
      is worth as much as c says. */
  predicate IsChangeOutput(tx: Tx, recipients: seq<string>, changeAddress: string, txid: string, c: Utxo)
    requires |recipients| == |tx.payments|
  {
    var os := Outputs(tx, recipients, changeAddress);
    && c.outpoint.txid == txid && |recipients| <= c.outpoint.vout < |os|
    && os[c.outpoint.vout] == Output(changeAddress, c.satoshis) && c.address == changeAddress
  }

  /** A broadcast that succeeds remembers the change output of its transaction, under the real txid
      and never a recipient's output; a single send forgets the oldest change beyond 1000. One that
      fails, or that leaves no change, remembers nothing, and none unmarks an input. */
  lemma BroadcastRemembersExactly(a: Agent, i: nat, txid: Option<string>, recipients: seq<string>)
    requires Enabled(a, Broadcast(i, txid)) && |recipients| == |a.sends[i].phase.tx.payments|
    ensures var r, tx, v := a.sends[i].request, a.sends[i].phase.tx, Next(a, Broadcast(i, txid));
      && v.sends[i].phase == Settled && v.spent == a.spent
      && (if txid.Some? && |Outputs(tx, recipients, r.changeAddress)| > |recipients|
          then exists c :: IsChangeOutput(tx, recipients, r.changeAddress, txid.value, c)
                           && Remembers(a.pendingChange, [c], 1000, r.single, v.pendingChange)
          else v.pendingChange == a.pendingChange)
  {
    var r, tx := a.sends[i].request, a.sends[i].phase.tx;
    if txid.Some? && tx.change.Some? {
      var c := ChangeOf(tx, txid.value, r.changeAddress).value;
      assert IsChangeOutput(tx, recipients, r.changeAddress, txid.value, c);
      NewestRemembers(a.pendingChange, [c], MAX_PENDING_CHANGE, r.single);
    }
  }

  /** A send that fails is over and gives none of its marks back. */
  lemma FailureKeepsMarks(a: Agent, i: nat)
    requires Enabled(a, Fail(i))
    ensures var v := Next(a, Fail(i)); v.sends[i].phase == Settled && v.spent == a.spent && v.pendingChange == a.pendingChange
  {
  }
}
