/** When a low balance leads to a top-up, told by what was recorded. */
module CreditLaws {
  import opened Prelude
  import opened CreditWatching

  /** A recorded top-up started less than the configured interval before. */
  predicate TooSoon(p: Policy, w: Watcher, now: int) {
    exists s :: s in w.recorded && now - s.at < p.minIntervalSec * 1000
  }

  /** What was spent after one time and up to another. */
  function SpentBetween(spends: seq<Spend>, after: int, upTo: int): real {
    if spends == [] then 0.0
    else (if after < spends[0].at <= upTo then spends[0].amount else 0.0) + SpentBetween(spends[1..], after, upTo)
  }

  /** The recorded spend of the last 24 hours leaves room for one more top-up. */
  predicate RoomLeft(p: Policy, w: Watcher, now: int) {
    SpentBetween(w.recorded, now - 86400000, now) + p.topUpAmount <= p.dailyCapVrsc
  }

  lemma {:induction false} SpentBetweenPush(spends: seq<Spend>, s: Spend, after: int, upTo: int)
    ensures SpentBetween(spends + [s], after, upTo) ==
      SpentBetween(spends, after, upTo) + if after < s.at <= upTo then s.amount else 0.0
  {
    if spends == [] {
      assert spends + [s] == [s];
    } else {
      SpentBetweenPush(spends[1..], s, after, upTo);
      assert (spends + [s])[1..] == spends[1..] + [s];
    }
  }

  lemma {:induction false} WindowIsTail(spends: seq<Spend>, now: int)
    requires forall s :: s in spends ==> s.at <= now
    ensures SpentBetween(spends, now - 86400000, now) == SpentAfter(spends, now - DAY_MS)
  {
    if spends != [] {
      var before, last := spends[..|spends| - 1], spends[|spends| - 1];
      WindowIsTail(before, now);
      SpentBetweenPush(before, last, now - 86400000, now);
      assert spends == before + [last];
    }
  }

  lemma StartsAreOrdered(p: Policy, w: Watcher)
    requires Inv(p, w)
    ensures Ordered(w.recorded, w.clock)
    ensures w.recorded != [] ==> w.lastTopUpAt == w.recorded[|w.recorded| - 1].at > 0
    ensures forall s :: s in w.recorded ==> s.at <= w.lastTopUpAt
  {
    var all, n := Committed(p, w), |w.recorded|;
    forall i, j | 0 <= i < j < n ensures w.recorded[i].at <= w.recorded[j].at { assert all[i].at <= all[j].at; }
    forall i | 0 <= i < n ensures 0 < w.recorded[i].at <= w.clock { assert 0 < all[i].at <= w.clock; }
    forall s | s in w.recorded ensures s.at <= w.lastTopUpAt {
      var i :| 0 <= i < n && w.recorded[i] == s;
    }
  }

  lemma SoonIsLast(p: Policy, w: Watcher, now: int)
    requires Inv(p, w)
    ensures TooSoon(p, w, now) <==> w.lastTopUpAt > 0 && now - w.lastTopUpAt < p.minIntervalSec * 1000
  {
    StartsAreOrdered(p, w);
    if w.recorded != [] { assert w.recorded[|w.recorded| - 1] in w.recorded; }
  }

  lemma RoomIsLedgers(p: Policy, w: Watcher, now: int)
    requires Inv(p, w) && now >= w.clock
    ensures RoomLeft(p, w, now) <==> SpentAfter(w.spends, now - DAY_MS) + p.topUpAmount <= p.dailyCapVrsc
  {
    StartsAreOrdered(p, w);
    forall s | s in w.recorded ensures s.at <= now { var i :| 0 <= i < |w.recorded| && w.recorded[i] == s; }
    WindowIsTail(w.recorded, now);
    PruningLosesNothing(p, w, now);
  }

  /** In every reachable state a low signal is rate-limited exactly if a top-up is in flight or one
      was recorded too recently, refused by the cap exactly if neither holds and the last 24 hours
      leave no room, and otherwise it claims the guard. */
  lemma DecisionExactly(p: Policy, events: seq<Event>, now: int)
    requires Runs(p, events).Some? && now >= Runs(p, events).value.clock
    ensures var w := Runs(p, events).value;
      var d := Decide(p, w.pending, w.lastTopUpAt, w.spends, now);
      && (d == RateLimited <==> w.flights != map[] || TooSoon(p, w, now))
      && (d == CapReached <==> w.flights == map[] && !TooSoon(p, w, now) && !RoomLeft(p, w, now))
      && (d == Claimed <==> w.flights == map[] && !TooSoon(p, w, now) && RoomLeft(p, w, now))
  {
    EveryRunKeepsInv(p, events);
    var w := Runs(p, events).value;
    SoonIsLast(p, w, now);
    RoomIsLedgers(p, w, now);
  }

  /** In every reachable state a low signal puts a new top-up in flight, and does nothing else, if and
      only if none is in flight, none was recorded too recently and the last 24 hours leave room. */
  lemma TopUpExactly(p: Policy, events: seq<Event>, caller: nat, now: int)
    requires Runs(p, events).Some? && Enabled(Runs(p, events).value, LowSignal(caller, now))
    ensures var w := Runs(p, events).value;
      var v := Next(p, w, LowSignal(caller, now));
      && v.flights == (if w.flights == map[] && !TooSoon(p, w, now) && RoomLeft(p, w, now)
                       then map[caller := Flight(Sending, now)] else w.flights)
      && v.recorded == w.recorded && v.paid == w.paid && v.unrecorded == w.unrecorded
  {
    DecisionExactly(p, events, now);
  }

  /** What each answer does: a payment that was sent is signed for and then reported; the reported one
      is recorded at its start whatever the answer, one whose signature fails is lost, one that was
      not sent is not paid. */
  lemma AnswersExactly(p: Policy, events: seq<Event>, e: Event)
    requires Runs(p, events).Some? && Enabled(Runs(p, events).value, e) && !e.LowSignal?
    ensures var w := Runs(p, events).value;
      var v, s := Next(p, w, e), Spend(w.flights[e.caller].startedAt, p.topUpAmount);
      && v.paid == w.paid + (if e.SendOk? then [s] else [])
      && v.recorded == w.recorded + (if e.ReportDone? then [s] else [])
      && v.unrecorded == w.unrecorded + (if e.SignError? then [s] else [])
      && v.flights == (if e.SendOk? then map[e.caller := Flight(Signing, s.at)]
                       else if e.SignOk? then map[e.caller := Flight(Reporting, s.at)] else map[])
  {
    EveryRunKeepsInv(p, events);
    var w := Runs(p, events).value;
    var v := Next(p, w, e);
    assert w.flights.Keys == {e.caller};
  }
}
