/** Automatic top-ups under a daily cap. */
module CreditWatching {
  import opened Prelude

  const DAY_MS := 24 * 3600 * 1000

  datatype Policy = Policy(threshold: real, topUpAmount: real, dailyCapVrsc: real, minIntervalSec: nat)

  /** A spend and the time its top-up started. */
  datatype Spend = Spend(at: int, amount: real)

  /** What a low signal leads to before the first await. */
  datatype Decision = RateLimited | CapReached | Claimed

  /** Total of the spends after a cutoff. */
  function SpentAfter(spends: seq<Spend>, cutoff: int): real {
    if spends == [] then 0.0
    else SpentAfter(spends[..|spends| - 1], cutoff)
         + if spends[|spends| - 1].at > cutoff then spends[|spends| - 1].amount else 0.0
  }

  function After(spends: seq<Spend>, cutoff: int): seq<Spend> {
    if spends == [] then []
    else
      var kept, s := After(spends[..|spends| - 1], cutoff), spends[|spends| - 1];
      if s.at > cutoff then kept + [s] else kept
  }

  function Recorded(spends: seq<Spend>, s: Spend): seq<Spend> { After(spends, s.at - DAY_MS) + [s] }

  function Decide(p: Policy, pending: bool, lastTopUpAt: int, spends: seq<Spend>, now: int): Decision {
    if pending then RateLimited
    else if lastTopUpAt > 0 && now - lastTopUpAt < p.minIntervalSec * 1000 then RateLimited
    else if SpentAfter(spends, now - DAY_MS) + p.topUpAmount > p.dailyCapVrsc then CapReached
    else Claimed
  }

  /** A balance signal; None when it is not a finite number. */
  datatype SignalAction = NoOp | AboveThreshold | Decided(decision: Decision)

  class CreditWatcher {
    const policy: Policy
    const sellerVerusId: string
    var pending: bool
    var lastTopUpAt: int
    var spends: seq<Spend>

    constructor (policy: Policy, sellerVerusId: string)
      ensures this.policy == policy && this.sellerVerusId == sellerVerusId
      ensures !pending && lastTopUpAt == 0 && spends == []
    {
      this.policy, this.sellerVerusId := policy, sellerVerusId;
      pending, lastTopUpAt, spends := false, 0, [];
    }

    method SpentInWindow(now: int) returns (total: real)
      ensures total == SpentAfter(spends, now - DAY_MS)
    {
      var cutoff := now - DAY_MS;
      total := 0.0;
      for i := 0 to |spends|
        invariant total == SpentAfter(spends[..i], cutoff)
      {
        assert spends[..i + 1][..i] == spends[..i];
        if spends[i].at > cutoff { total := total + spends[i].amount; }
      }
      assert spends[..|spends|] == spends;
    }

    /** The part of maybeTopUp before its first await: it claims the guard or gives up. */
    method MaybeTopUp(now: int) returns (d: Decision)
      modifies this`pending
      ensures d == Decide(policy, old(pending), lastTopUpAt, spends, now)
      ensures pending == (old(pending) || d == Claimed)
    {
      if pending { return RateLimited; }
      if lastTopUpAt > 0 && now - lastTopUpAt < policy.minIntervalSec * 1000 { return RateLimited; }
      var spentToday := SpentInWindow(now);
      if spentToday + policy.topUpAmount > policy.dailyCapVrsc { return CapReached; }
      pending := true;
      return Claimed;
    }

    method ObserveRemaining(remaining: Option<real>, now: int) returns (a: SignalAction)
      modifies this`pending
      ensures a == (if remaining.None? then NoOp
                    else if remaining.value >= policy.threshold then AboveThreshold
                    else Decided(Decide(policy, old(pending), lastTopUpAt, spends, now)))
      ensures pending == (old(pending) || a == Decided(Claimed))
    {
      if remaining.None? { return NoOp; }
      if remaining.value >= policy.threshold { return AboveThreshold; }
      var d := MaybeTopUp(now);
      return Decided(d);
    }

    method OnCreditLow(seller: string, balance: Option<real>, now: int) returns (a: SignalAction)
      modifies this`pending
      ensures seller != sellerVerusId ==> a == NoOp && pending == old(pending)
      ensures seller == sellerVerusId ==>
        a == (if balance.None? then NoOp
              else if balance.value >= policy.threshold then AboveThreshold
              else Decided(Decide(policy, old(pending), lastTopUpAt, spends, now)))
        && pending == (old(pending) || a == Decided(Claimed))
    {
      if seller != sellerVerusId { return NoOp; }
      a := ObserveRemaining(balance, now);
    }

    method RecordSpend(amount: real, at: int)
      modifies this`spends
      ensures spends == Recorded(old(spends), Spend(at, amount))
    {
      var cutoff := at - DAY_MS;
      var kept := [];
      for i := 0 to |spends|
        invariant kept == After(spends[..i], cutoff)
      {
        assert spends[..i + 1][..i] == spends[..i];
        if spends[i].at > cutoff { kept := kept + [spends[i]]; }
      }
      assert spends[..|spends|] == spends;
      spends := kept + [Spend(at, amount)];
    }

    /** The end of a top-up: the report was answered or failed, so the spend is recorded, or the
        send or the signature failed, and it is not. The guard is released either way. */
    method Finish(reported: bool, startedAt: int)
      modifies this
      ensures !pending
      ensures lastTopUpAt == if reported then startedAt else old(lastTopUpAt)
      ensures spends == if reported then Recorded(old(spends), Spend(startedAt, policy.topUpAmount)) else old(spends)
    {
      if reported {
        RecordSpend(policy.topUpAmount, startedAt);
        lastTopUpAt := startedAt;
      }
      pending := false;
    }
  }

  // ---- interleaved callers ----

  /** Which await a top-up is at. */
  datatype Stage = Sending | Signing | Reporting

  datatype Flight = Flight(stage: Stage, startedAt: int)

  /** The watcher, its callers in flight and logs of what happened: all spends ever recorded, all
      payments that left the wallet, and those of them that were never recorded. */
  datatype Watcher = Watcher(
    pending: bool,
    lastTopUpAt: int,
    spends: seq<Spend>,
    flights: map<nat, Flight>,
    clock: int,
    recorded: seq<Spend>,
    paid: seq<Spend>,
    unrecorded: seq<Spend>)

  const Idle := Watcher(false, 0, [], map[], 1, [], [], [])

  datatype Event =
    | LowSignal(caller: nat, now: int)
    | SendOk(caller: nat)
    | SendError(caller: nat)
    | SignOk(caller: nat)
    | SignError(caller: nat)
    | ReportDone(caller: nat)

  predicate AtStage(w: Watcher, caller: nat, stage: Stage) {
    caller in w.flights && w.flights[caller].stage == stage
  }

  /** The clock is positive and never goes back. */
  predicate Enabled(w: Watcher, e: Event) {
    match e
    case LowSignal(c, now) => c !in w.flights && now >= w.clock
    case SendOk(c) => AtStage(w, c, Sending)
    case SendError(c) => AtStage(w, c, Sending)
    case SignOk(c) => AtStage(w, c, Signing)
    case SignError(c) => AtStage(w, c, Signing)
    case ReportDone(c) => AtStage(w, c, Reporting)
  }

  function Next(p: Policy, w: Watcher, e: Event): Watcher
    requires Enabled(w, e)
  {
    match e
    case LowSignal(c, now) =>
      var v := w.(clock := now);
      if Decide(p, w.pending, w.lastTopUpAt, w.spends, now) == Claimed
      then v.(pending := true, flights := w.flights[c := Flight(Sending, now)]) else v
    case SendOk(c) =>
      var at := w.flights[c].startedAt;
      w.(flights := w.flights[c := Flight(Signing, at)], paid := w.paid + [Spend(at, p.topUpAmount)])
    case SendError(c) => w.(pending := false, flights := w.flights - {c})
    case SignOk(c) => w.(flights := w.flights[c := Flight(Reporting, w.flights[c].startedAt)])
    case SignError(c) =>
      w.(pending := false, flights := w.flights - {c},
         unrecorded := w.unrecorded + [Spend(w.flights[c].startedAt, p.topUpAmount)])
    case ReportDone(c) =>
      var s := Spend(w.flights[c].startedAt, p.topUpAmount);
      w.(pending := false, flights := w.flights - {c}, lastTopUpAt := s.at,
         spends := Recorded(w.spends, s), recorded := w.recorded + [s])
  }

  /** Every state some interleaving of the events leads to. */
  function Runs(p: Policy, events: seq<Event>): Option<Watcher> {
    if events == [] then Some(Idle)
    else
      match Runs(p, events[..|events| - 1])
      case None => None
      case Some(w) => if Enabled(w, events[|events| - 1]) then Some(Next(p, w, events[|events| - 1])) else None
  }

  // ---- what every interleaving keeps ----

  /** At most one caller is in flight, and the guard is held exactly while one is. */
  predicate OneFlight(w: Watcher) {
    && (forall c, d :: c in w.flights && d in w.flights ==> c == d)
    && (w.pending <==> w.flights != map[])
  }

  /** The spend of the top-up in flight. */
  function InFlight(p: Policy, w: Watcher): seq<Spend>
    requires OneFlight(w)
  {
    if w.flights == map[] then []
    else
      assert w.flights.Keys != {};
      var c :| c in w.flights;
      [Spend(w.flights[c].startedAt, p.topUpAmount)]
  }

  function Committed(p: Policy, w: Watcher): seq<Spend>
    requires OneFlight(w)
  {
    w.recorded + InFlight(p, w)
  }

  /** When each spend started, those of the day before it and itself fit the cap. */
  predicate Capped(p: Policy, spends: seq<Spend>) {
    spends == [] ||
    (Capped(p, spends[..|spends| - 1]) && SpentAfter(spends, spends[|spends| - 1].at - DAY_MS) <= p.dailyCapVrsc)
  }

  /** Consecutive starts are at least the configured interval apart. */
  predicate Apart(p: Policy, spends: seq<Spend>) {
    forall i :: 0 < i < |spends| ==> spends[i].at - spends[i - 1].at >= p.minIntervalSec * 1000
  }

  /** All starts lie in 1..clock, in order. */
  predicate Ordered(spends: seq<Spend>, clock: int) {
    && (forall i :: 0 <= i < |spends| ==> 0 < spends[i].at <= clock)
    && (forall i, j :: 0 <= i < j < |spends| ==> spends[i].at <= spends[j].at)
  }

  predicate Sound(p: Policy, spends: seq<Spend>, clock: int) {
    Ordered(spends, clock) && Capped(p, spends) && Apart(p, spends)
  }

  /** The ledger is the history without what fell out of the window. */
  predicate Pruned(w: Watcher) {
    && w.spends == After(w.recorded, w.lastTopUpAt - DAY_MS)
    && w.lastTopUpAt == (if w.recorded == [] then 0 else w.recorded[|w.recorded| - 1].at)
  }

  /** Total of the spends started in the day that ends at t. */
  function InWindow(spends: seq<Spend>, t: int): real {
    if spends == [] then 0.0
    else InWindow(spends[..|spends| - 1], t)
         + if t - DAY_MS < spends[|spends| - 1].at <= t then spends[|spends| - 1].amount else 0.0
  }

  /** The payment in flight that already left the wallet. */
  function PaidInFlight(p: Policy, w: Watcher): seq<Spend>
    requires OneFlight(w)
  {
    if exists c :: c in w.flights && w.flights[c].stage != Sending then InFlight(p, w) else []
  }

  /** Everything paid was recorded, lost its record to a failed signature, or is in flight. */
  ghost predicate Accounted(p: Policy, w: Watcher)
    requires OneFlight(w)
  {
    forall t :: InWindow(w.paid, t) == InWindow(w.recorded, t) + InWindow(w.unrecorded, t) + InWindow(PaidInFlight(p, w), t)
  }

  ghost predicate Inv(p: Policy, w: Watcher) {
    && OneFlight(w) && w.clock >= 1 && Pruned(w)
    && Sound(p, Committed(p, w), w.clock)
    && Accounted(p, w)
  }

  // ---- the pruned ledger ----

  lemma SpentPush(spends: seq<Spend>, s: Spend, cutoff: int)
    ensures SpentAfter(spends + [s], cutoff) == SpentAfter(spends, cutoff) + if s.at > cutoff then s.amount else 0.0
  {
    assert (spends + [s])[..|spends|] == spends;
  }

  lemma WindowPush(spends: seq<Spend>, s: Spend, t: int)
    ensures InWindow(spends + [s], t) == InWindow(spends, t) + if t - DAY_MS < s.at <= t then s.amount else 0.0
  {
    assert (spends + [s])[..|spends|] == spends;
  }

  /** Dropping what is older than one cutoff changes nothing for a later one. */
  lemma {:induction false} AfterAfter(spends: seq<Spend>, early: int, late: int)
    requires early <= late
    ensures After(After(spends, early), late) == After(spends, late)
    ensures SpentAfter(After(spends, early), late) == SpentAfter(spends, late)
  {
    if spends != [] {
      var before, s := spends[..|spends| - 1], spends[|spends| - 1];
      AfterAfter(before, early, late);
      var kept := After(before, early);
      SpentPush(kept, s, late);
      assert (kept + [s])[..|kept|] == kept;
    }
  }

  /** The pruned ledger gives the same window total as the full history, now and later. */
  lemma PruningLosesNothing(p: Policy, w: Watcher, now: int)
    requires Inv(p, w) && now >= w.clock
    ensures SpentAfter(w.spends, now - DAY_MS) == SpentAfter(w.recorded, now - DAY_MS)
  {
    if w.recorded == [] {
      assert After(w.recorded, w.lastTopUpAt - DAY_MS) == [];
    } else {
      var last := |w.recorded| - 1;
      assert Committed(p, w)[last] == w.recorded[last];
      AfterAfter(w.recorded, w.lastTopUpAt - DAY_MS, now - DAY_MS);
    }
  }

  lemma FlightSpend(p: Policy, w: Watcher, c: nat)
    requires OneFlight(w) && c in w.flights
    ensures InFlight(p, w) == [Spend(w.flights[c].startedAt, p.topUpAmount)]
    ensures PaidInFlight(p, w) == if w.flights[c].stage == Sending then [] else InFlight(p, w)
  {}

  // ---- each step keeps the invariant ----

  lemma OrderedPush(spends: seq<Spend>, clock: int, s: Spend)
    requires Ordered(spends, clock) && s.at >= clock >= 1
    ensures Ordered(spends + [s], s.at)
  {
    var all, n := spends + [s], |spends|;
    forall i, j | 0 <= i < j < |all| ensures all[i].at <= all[j].at {
      if j < n { assert spends[i].at <= spends[j].at; } else { assert spends[i].at <= clock; }
    }
    forall i | 0 <= i < |all| ensures 0 < all[i].at <= s.at {
      if i < n { assert spends[i].at <= clock; }
    }
  }

  lemma ApartPush(p: Policy, spends: seq<Spend>, s: Spend)
    requires Apart(p, spends) && (spends != [] ==> s.at - spends[|spends| - 1].at >= p.minIntervalSec * 1000)
    ensures Apart(p, spends + [s])
  {
    var all := spends + [s];
    forall i | 0 < i < |all| ensures all[i].at - all[i - 1].at >= p.minIntervalSec * 1000 {
      if i < |spends| { assert spends[i].at - spends[i - 1].at >= p.minIntervalSec * 1000; }
    }
  }

  lemma CappedPush(p: Policy, spends: seq<Spend>, s: Spend)
    requires Capped(p, spends) && SpentAfter(spends, s.at - DAY_MS) + s.amount <= p.dailyCapVrsc
    ensures Capped(p, spends + [s])
  {
    SpentPush(spends, s, s.at - DAY_MS);
    assert (spends + [s])[..|spends|] == spends;
  }

  lemma SoundPush(p: Policy, spends: seq<Spend>, clock: int, s: Spend)
    requires Sound(p, spends, clock) && s.at >= clock >= 1
    requires SpentAfter(spends, s.at - DAY_MS) + s.amount <= p.dailyCapVrsc
    requires spends != [] ==> s.at - spends[|spends| - 1].at >= p.minIntervalSec * 1000
    ensures Sound(p, spends + [s], s.at)
  {
    OrderedPush(spends, clock, s);
    ApartPush(p, spends, s);
    CappedPush(p, spends, s);
  }

  lemma SoundPrefix(p: Policy, spends: seq<Spend>, s: Spend, clock: int)
    requires Sound(p, spends + [s], clock)
    ensures Sound(p, spends, clock)
  {
    var all := spends + [s];
    assert all[..|spends|] == spends;
    forall i, j | 0 <= i < j < |spends| ensures spends[i].at <= spends[j].at { assert all[i].at <= all[j].at; }
    forall i | 0 <= i < |spends| ensures 0 < spends[i].at <= clock { assert 0 < all[i].at <= clock; }
    forall i | 0 < i < |spends| ensures spends[i].at - spends[i - 1].at >= p.minIntervalSec * 1000 {
      assert all[i].at - all[i - 1].at >= p.minIntervalSec * 1000;
    }
  }

  /** What a claim is granted on, in terms of the whole history. */
  lemma ClaimIsSound(p: Policy, w: Watcher, now: int)
    requires Inv(p, w) && now >= w.clock && Decide(p, w.pending, w.lastTopUpAt, w.spends, now) == Claimed
    ensures w.flights == map[]
    ensures Sound(p, w.recorded + [Spend(now, p.topUpAmount)], now)
  {
    assert w.flights == map[];
    assert Committed(p, w) == w.recorded;
    PruningLosesNothing(p, w, now);
    if w.recorded != [] { assert Committed(p, w)[|w.recorded| - 1].at > 0; }
    SoundPush(p, w.recorded, w.clock, Spend(now, p.topUpAmount));
  }

  lemma ClaimKeepsInv(p: Policy, w: Watcher, c: nat, now: int)
    requires Inv(p, w) && Enabled(w, LowSignal(c, now))
    requires Decide(p, w.pending, w.lastTopUpAt, w.spends, now) == Claimed
    ensures Inv(p, Next(p, w, LowSignal(c, now)))
  {
    var v := Next(p, w, LowSignal(c, now));
    ClaimIsSound(p, w, now);
    assert v.flights == map[c := Flight(Sending, now)];
    FlightSpend(p, v, c);
    assert Committed(p, v) == w.recorded + [Spend(now, p.topUpAmount)];
  }

  lemma RefusalKeepsInv(p: Policy, w: Watcher, c: nat, now: int)
    requires Inv(p, w) && Enabled(w, LowSignal(c, now))
    requires Decide(p, w.pending, w.lastTopUpAt, w.spends, now) != Claimed
    ensures Inv(p, Next(p, w, LowSignal(c, now)))
  {
    var v := Next(p, w, LowSignal(c, now));
    assert v == w.(clock := now);
    assert InFlight(p, v) == InFlight(p, w);
  }

  lemma FailureKeepsSound(p: Policy, w: Watcher, e: Event)
    requires Inv(p, w) && Enabled(w, e) && (e.SendError? || e.SignError?)
    ensures var v := Next(p, w, e); OneFlight(v) && v.flights == map[] && Sound(p, Committed(p, v), v.clock)
  {
    var v := Next(p, w, e);
    FlightSpend(p, w, e.caller);
    assert v.flights == map[];
    assert Committed(p, v) == w.recorded;
    SoundPrefix(p, w.recorded, InFlight(p, w)[0], w.clock);
  }

  lemma WindowMoves(a: seq<Spend>, s: Spend)
    ensures forall t :: InWindow(a + [s], t) == InWindow(a, t) + InWindow([s], t)
  {
    forall t ensures InWindow(a + [s], t) == InWindow(a, t) + InWindow([s], t) { WindowAppend(a, [s], t); }
  }

  lemma FailureKeepsInv(p: Policy, w: Watcher, e: Event)
    requires Inv(p, w) && Enabled(w, e) && (e.SendError? || e.SignError?)
    ensures Inv(p, Next(p, w, e))
  {
    FailureKeepsSound(p, w, e);
    FlightSpend(p, w, e.caller);
    WindowMoves(w.unrecorded, InFlight(p, w)[0]);
  }

  lemma ProgressKeepsFlight(p: Policy, w: Watcher, e: Event)
    requires Inv(p, w) && Enabled(w, e) && (e.SendOk? || e.SignOk?)
    ensures var v := Next(p, w, e);
      OneFlight(v) && e.caller in v.flights && InFlight(p, v) == InFlight(p, w) && PaidInFlight(p, v) == InFlight(p, v)
  {
    var v, c := Next(p, w, e), e.caller;
    assert v.flights.Keys == w.flights.Keys;
    FlightSpend(p, w, c);
    FlightSpend(p, v, c);
  }

  lemma ProgressKeepsAccounted(p: Policy, w: Watcher, e: Event)
    requires Inv(p, w) && Enabled(w, e) && (e.SendOk? || e.SignOk?)
    ensures OneFlight(Next(p, w, e)) && Accounted(p, Next(p, w, e))
  {
    ProgressKeepsFlight(p, w, e);
    FlightSpend(p, w, e.caller);
    WindowMoves(w.paid, InFlight(p, w)[0]);
  }

  lemma ProgressKeepsInv(p: Policy, w: Watcher, e: Event)
    requires Inv(p, w) && Enabled(w, e) && (e.SendOk? || e.SignOk?)
    ensures Inv(p, Next(p, w, e))
  {
    ProgressKeepsFlight(p, w, e);
    ProgressKeepsAccounted(p, w, e);
    assert Committed(p, Next(p, w, e)) == Committed(p, w);
  }

  /** The spend in flight is the newest of all. */
  lemma FlightIsNewest(p: Policy, w: Watcher, c: nat)
    requires Inv(p, w) && c in w.flights
    ensures Committed(p, w) == w.recorded + [Spend(w.flights[c].startedAt, p.topUpAmount)]
    ensures w.recorded != [] ==> w.lastTopUpAt <= w.flights[c].startedAt
    ensures w.flights[c].startedAt > 0
  {
    FlightSpend(p, w, c);
    var all, n := Committed(p, w), |w.recorded|;
    assert all[n].at == w.flights[c].startedAt;
    if n > 0 { assert all[n - 1].at <= all[n].at; }
  }

  lemma PrunedPush(w: Watcher, s: Spend)
    requires Pruned(w) && (w.recorded != [] ==> w.lastTopUpAt <= s.at)
    ensures Recorded(w.spends, s) == After(w.recorded + [s], s.at - DAY_MS)
  {
    if w.recorded != [] { AfterAfter(w.recorded, w.lastTopUpAt - DAY_MS, s.at - DAY_MS); }
    assert (w.recorded + [s])[..|w.recorded|] == w.recorded;
  }

  lemma ReportKeepsInv(p: Policy, w: Watcher, c: nat)
    requires Inv(p, w) && Enabled(w, ReportDone(c))
    ensures Inv(p, Next(p, w, ReportDone(c)))
  {
    var v := Next(p, w, ReportDone(c));
    var s := Spend(w.flights[c].startedAt, p.topUpAmount);
    FlightIsNewest(p, w, c);
    FlightSpend(p, w, c);
    PrunedPush(w, s);
    assert v.flights == map[];
    assert Committed(p, v) == Committed(p, w);
    WindowMoves(w.recorded, s);
  }

  lemma StepKeepsInv(p: Policy, w: Watcher, e: Event)
    requires Inv(p, w) && Enabled(w, e)
    ensures Inv(p, Next(p, w, e))
  {
    match e
    case LowSignal(c, now) =>
      if Decide(p, w.pending, w.lastTopUpAt, w.spends, now) == Claimed {
        ClaimKeepsInv(p, w, c, now);
      } else {
        RefusalKeepsInv(p, w, c, now);
      }
    case SendOk(_) => ProgressKeepsInv(p, w, e);
    case SignOk(_) => ProgressKeepsInv(p, w, e);
    case SendError(_) => FailureKeepsInv(p, w, e);
    case SignError(_) => FailureKeepsInv(p, w, e);
    case ReportDone(c) => ReportKeepsInv(p, w, c);
  }

  lemma {:induction false} EveryRunKeepsInv(p: Policy, events: seq<Event>)
    requires Runs(p, events).Some?
    ensures Inv(p, Runs(p, events).value)
  {
    if events != [] {
      EveryRunKeepsInv(p, events[..|events| - 1]);
      StepKeepsInv(p, Runs(p, events[..|events| - 1]).value, events[|events| - 1]);
    }
  }

  // ---- the spend cap ----

  lemma {:induction false} WindowWithinTail(p: Policy, spends: seq<Spend>, t: int, cutoff: int)
    requires forall s :: s in spends ==> s.amount >= 0.0
    requires cutoff <= t - DAY_MS
    ensures 0.0 <= InWindow(spends, t) <= SpentAfter(spends, cutoff)
  {
    if spends != [] { WindowWithinTail(p, spends[..|spends| - 1], t, cutoff); }
  }

  lemma {:induction false} CappedWindows(p: Policy, spends: seq<Spend>, t: int)
    requires Capped(p, spends) && forall s :: s in spends ==> s.amount >= 0.0
    ensures InWindow(spends, t) == 0.0 || InWindow(spends, t) <= p.dailyCapVrsc
  {
    if spends != [] {
      var before, last := spends[..|spends| - 1], spends[|spends| - 1];
      if last.at > t {
        CappedWindows(p, before, t);
      } else {
        WindowWithinTail(p, spends, t, last.at - DAY_MS);
      }
    }
  }

  lemma {:induction false} AmountsOfRun(p: Policy, events: seq<Event>)
    requires Runs(p, events).Some?
    ensures forall s :: s in Runs(p, events).value.recorded + Runs(p, events).value.unrecorded ==> s.amount == p.topUpAmount
  {
    if events != [] { AmountsOfRun(p, events[..|events| - 1]); }
  }

  /** Under every interleaving of callers: at most one top-up is in flight; recorded top-ups and the
      one in flight start at least the interval apart; and in every 24-hour window recorded spend
      plus the amount in flight stays within the daily cap. */
  lemma RecordedSpendIsCapped(p: Policy, events: seq<Event>, t: int)
    requires Runs(p, events).Some? && p.topUpAmount >= 0.0
    ensures var w := Runs(p, events).value;
      && Inv(p, w) && Apart(p, Committed(p, w))
      && (InWindow(Committed(p, w), t) == 0.0 || InWindow(Committed(p, w), t) <= p.dailyCapVrsc)
  {
    EveryRunKeepsInv(p, events);
    AmountsOfRun(p, events);
    var w := Runs(p, events).value;
    forall s | s in Committed(p, w) ensures s.amount >= 0.0 {
      if s !in w.recorded { assert s in InFlight(p, w); }
    }
    CappedWindows(p, Committed(p, w), t);
  }

  lemma {:induction false} WindowAppend(a: seq<Spend>, b: seq<Spend>, t: int)
    ensures InWindow(a + b, t) == InWindow(a, t) + InWindow(b, t)
  {
    if b == [] {
      assert a + b == a;
    } else {
      assert (a + b)[..|a + b| - 1] == a + b[..|b| - 1];
      WindowAppend(a, b[..|b| - 1], t);
    }
  }

  /** What actually left the wallet is what was recorded, what is in flight and the payments whose
      signature failed afterwards, so it exceeds the cap by no more than those: without such a failure the cap holds for real spend too. */
  lemma PaidSpendIsCappedUpToLostRecords(p: Policy, events: seq<Event>, t: int)
    requires Runs(p, events).Some? && p.topUpAmount >= 0.0 && p.dailyCapVrsc >= 0.0
    ensures var w := Runs(p, events).value;
      && OneFlight(w)
      && InWindow(w.paid, t) == InWindow(w.recorded, t) + InWindow(PaidInFlight(p, w), t) + InWindow(w.unrecorded, t)
      && InWindow(w.paid, t) <= p.dailyCapVrsc + InWindow(w.unrecorded, t)
      && (w.unrecorded == [] ==> InWindow(w.paid, t) <= p.dailyCapVrsc)
  {
    RecordedSpendIsCapped(p, events, t);
    var w := Runs(p, events).value;
    WindowAppend(w.recorded, InFlight(p, w), t);
    if w.flights != map[] {
      var c :| c in w.flights;
      FlightSpend(p, w, c);
      WindowPush([], InFlight(p, w)[0], t);
    }
  }

  // ---- the cap and failing signatures ----

  /** n top-ups at time 1 whose signatures all fail. */
  function Leak(n: nat): seq<Event> {
    if n == 0 then [] else Leak(n - 1) + [LowSignal(0, 1), SendOk(0), SignError(0)]
  }

  function Copies(s: Spend, n: nat): seq<Spend> { if n == 0 then [] else Copies(s, n - 1) + [s] }

  lemma RunPush(p: Policy, events: seq<Event>, e: Event)
    requires Runs(p, events).Some? && Enabled(Runs(p, events).value, e)
    ensures Runs(p, events + [e]) == Some(Next(p, Runs(p, events).value, e))
  {
    assert (events + [e])[..|events|] == events;
  }

  lemma {:induction false} LeakRuns(p: Policy, n: nat)
    requires p.topUpAmount <= p.dailyCapVrsc
    ensures Runs(p, Leak(n)) ==
      Some(Idle.(paid := Copies(Spend(1, p.topUpAmount), n), unrecorded := Copies(Spend(1, p.topUpAmount), n)))
  {
    if n > 0 {
      LeakRuns(p, n - 1);
      var w0 := Runs(p, Leak(n - 1)).value;
      RunPush(p, Leak(n - 1), LowSignal(0, 1));
      var w1 := Next(p, w0, LowSignal(0, 1));
      RunPush(p, Leak(n - 1) + [LowSignal(0, 1)], SendOk(0));
      var w2 := Next(p, w1, SendOk(0));
      RunPush(p, Leak(n - 1) + [LowSignal(0, 1)] + [SendOk(0)], SignError(0));
      assert Leak(n) == Leak(n - 1) + [LowSignal(0, 1)] + [SendOk(0)] + [SignError(0)];
      assert Next(p, w2, SignError(0)).flights == map[];
    }
  }

  lemma OneMore(n: nat, a: real)
    requires n > 0
    ensures n as real * a == (n - 1) as real * a + a
  {
    assert n as real == (n - 1) as real + 1.0;
  }

  lemma {:induction false} CopiesTotal(s: Spend, n: nat, t: int)
    requires t - DAY_MS < s.at <= t
    ensures InWindow(Copies(s, n), t) == n as real * s.amount
  {
    if n > 0 {
      CopiesTotal(s, n - 1, t);
      WindowPush(Copies(s, n - 1), s, t);
      OneMore(n, s.amount);
    }
  }

  lemma ScaleUp(x: real, y: real, a: real)
    requires x > y && a > 0.0
    ensures x * a > y * a
  {
    assert (x - y) * a > 0.0;
  }

  lemma EnoughCopies(cap: real, amount: real) returns (n: nat)
    requires amount > 0.0 && cap >= 0.0
    ensures n as real * amount > cap
  {
    var y := cap / amount;
    n := y.Floor + 1;
    ScaleUp(n as real, y, amount);
  }

  /** The cap is not a ceiling on what is paid. When a single top-up is allowed at all, runs whose
      signatures fail after the payment pay any number of top-ups within one day, so the promised
      ceiling holds over all runs exactly when no top-up can ever be sent. */
  lemma CapBindsPaymentsOnlyIfNoneIsAllowed(p: Policy)
    requires p.topUpAmount > 0.0 && p.dailyCapVrsc >= 0.0
    ensures (forall events, t :: Runs(p, events).Some? ==> InWindow(Runs(p, events).value.paid, t) <= p.dailyCapVrsc)
      <==> p.topUpAmount > p.dailyCapVrsc
  {
    if p.topUpAmount <= p.dailyCapVrsc {
      var n := EnoughCopies(p.dailyCapVrsc, p.topUpAmount);
      LeakRuns(p, n);
      CopiesTotal(Spend(1, p.topUpAmount), n, 1);
      assert InWindow(Runs(p, Leak(n)).value.paid, 1) > p.dailyCapVrsc;
    } else {
      forall events, t | Runs(p, events).Some? ensures InWindow(Runs(p, events).value.paid, t) <= p.dailyCapVrsc {
        NothingPaid(p, events);
      }
    }
  }

  lemma NothingIsClaimed(p: Policy, w: Watcher, now: int)
    requires Inv(p, w) && p.topUpAmount > p.dailyCapVrsc >= 0.0 && now >= w.clock
    requires forall s :: s in w.recorded ==> s.amount == p.topUpAmount
    ensures Decide(p, w.pending, w.lastTopUpAt, w.spends, now) != Claimed
  {
    PruningLosesNothing(p, w, now);
    WindowWithinTail(p, w.recorded, now, now - DAY_MS);
  }

  lemma {:induction false} NothingPaid(p: Policy, events: seq<Event>)
    requires Runs(p, events).Some? && p.topUpAmount > p.dailyCapVrsc >= 0.0
    ensures Runs(p, events).value.paid == [] && Runs(p, events).value.flights == map[]
  {
    if events != [] {
      NothingPaid(p, events[..|events| - 1]);
      EveryRunKeepsInv(p, events[..|events| - 1]);
      AmountsOfRun(p, events[..|events| - 1]);
      var w := Runs(p, events[..|events| - 1]).value;
      if events[|events| - 1].LowSignal? { NothingIsClaimed(p, w, events[|events| - 1].now); }
    }
  }
}
