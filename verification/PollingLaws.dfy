/** What a poll does with each job of its response. */
module PollingLaws {
  import opened Prelude
  import opened FifoSet
  import opened JobPolling

  // ---- every job is put to the handler ----

  /** While these events ran from a, poll i put a job with that id to the handler and was answered. */
  ghost predicate AnsweredIn(a: Agent, events: seq<Event>, i: nat, id: string) {
    exists k :: 0 <= k < |events| && AnsweredAt(a, events, i, id, k)
  }

  ghost predicate AnsweredAt(a: Agent, events: seq<Event>, i: nat, id: string, k: nat)
    requires k < |events|
  {
    && events[k].Answer? && events[k].i == i && RunFrom(a, events[..k]).Some?
    && var c := RunFrom(a, events[..k]).value;
      && i < |c.polls| && c.polls[i].Awaiting? && c.polls[i].next < |c.polls[i].response|
      && c.polls[i].response[c.polls[i].next].id == id
  }

  /** The job needs no answer any more: it has no id, was seen, or was answered. */
  ghost predicate Handled(a: Agent, events: seq<Event>, i: nat, id: string) {
    id == "" || id in a.tracker.seen || AnsweredIn(a, events, i, id)
  }

  ghost predicate Covered(a: Agent, events: seq<Event>, i: nat, response: seq<Job>, limit: nat, n: nat) {
    forall j :: 0 <= j < |response| && j < limit && j < n ==> Handled(a, events, i, response[j].id)
  }

  /** Who is seen in c was seen in a or answered since. */
  ghost predicate SeenKnown(a: Agent, events: seq<Event>, c: Agent, i: nat) {
    forall id :: id in c.tracker.seen ==> id in a.tracker.seen || AnsweredIn(a, events, i, id)
  }

  /** Where the poll is in its response, all jobs before that handled; seen is who was or was answered. */
  ghost predicate Tracks(a: Agent, events: seq<Event>, c: Agent, i: nat, response: seq<Job>, limit: nat) {
    && Inv(c) && c.running && i < |c.polls| && !c.polls[i].Fetching?
    && (c.polls[i].Returned? ==> Covered(a, events, i, response, limit, |response|))
    && (c.polls[i].Looping? ==>
          c.polls[i].response == response && c.polls[i].limit == limit && Covered(a, events, i, response, limit, c.polls[i].next))
    && (c.polls[i].Awaiting? ==>
          c.polls[i].response == response && c.polls[i].limit == limit && c.polls[i].next < limit
          && Covered(a, events, i, response, limit, c.polls[i].next))
    && (!c.polls[i].Returned? ==> SeenKnown(a, events, c, i))
  }

  lemma AnsweredStays(a: Agent, events: seq<Event>, e: Event, i: nat, id: string)
    requires AnsweredIn(a, events, i, id)
    ensures AnsweredIn(a, events + [e], i, id)
  {
    var k :| 0 <= k < |events| && AnsweredAt(a, events, i, id, k);
    assert (events + [e])[..k] == events[..k];
    assert AnsweredAt(a, events + [e], i, id, k);
  }

  lemma CoveredStays(a: Agent, events: seq<Event>, e: Event, i: nat, response: seq<Job>, limit: nat, n: nat)
    requires Covered(a, events, i, response, limit, n)
    ensures Covered(a, events + [e], i, response, limit, n)
  {
    forall j | 0 <= j < |response| && j < limit && j < n ensures Handled(a, events + [e], i, response[j].id) {
      if AnsweredIn(a, events, i, response[j].id) { AnsweredStays(a, events, e, i, response[j].id); }
    }
  }

  lemma AnswerCounts(a: Agent, events: seq<Event>, i: nat, v: Verdict, c: Agent)
    requires RunFrom(a, events) == Some(c) && Enabled(c, Answer(i, v))
    ensures AnsweredIn(a, events + [Answer(i, v)], i, c.polls[i].response[c.polls[i].next].id)
  {
    assert (events + [Answer(i, v)])[..|events|] == events;
    assert AnsweredAt(a, events + [Answer(i, v)], i, c.polls[i].response[c.polls[i].next].id, |events|);
  }

  lemma SeenStaysKnown(a: Agent, events: seq<Event>, e: Event, c: Agent, d: Agent, i: nat)
    requires SeenKnown(a, events, c, i)
    requires forall id :: id in d.tracker.seen ==> id in c.tracker.seen || AnsweredIn(a, events + [e], i, id)
    ensures SeenKnown(a, events + [e], d, i)
  {
    forall id | id in d.tracker.seen ensures id in a.tracker.seen || AnsweredIn(a, events + [e], i, id) {
      if AnsweredIn(a, events, i, id) { AnsweredStays(a, events, e, i, id); }
    }
  }

  /** While poll i is under way, every event but a call or a stop is its own. */
  lemma ActiveIsAlone(c: Agent, i: nat, e: Event)
    requires OnePoll(c.polls, c.polling) && Enabled(c, e) && i < |c.polls| && c.polls[i] != Returned
    ensures !e.Toggle? && !e.Call? ==> e.i == i
    ensures c.polling
  {
  }

  lemma ReturnedRests(c: Agent, i: nat, e: Event)
    requires Enabled(c, e) && i < |c.polls| && c.polls[i] == Returned && !e.Toggle?
    ensures i < |Next(c, e).polls| && Next(c, e).polls[i] == Returned && Next(c, e).running == c.running
  {
  }

  lemma LookTracks(a: Agent, events: seq<Event>, c: Agent, i: nat, response: seq<Job>, limit: nat)
    requires Tracks(a, events, c, i, response, limit) && Enabled(c, Look(i))
    ensures Tracks(a, events + [Look(i)], Next(c, Look(i)), i, response, limit)
  {
    StepKeepsInv(c, Look(i));
    CoveredStays(a, events, Look(i), i, response, limit, c.polls[i].next);
    if Next(c, Look(i)).polls[i] != Returned { SeenStaysKnown(a, events, Look(i), c, Next(c, Look(i)), i); }
  }

  lemma SettleSees(t: Tracker, job: Job, v: Verdict, id: string)
    ensures id in Settle(t, job, v).seen ==> id in t.seen || id == job.id
  {
  }

  lemma AnswerCovers(a: Agent, events: seq<Event>, c: Agent, i: nat, v: Verdict, response: seq<Job>, limit: nat)
    requires Enabled(c, Answer(i, v)) && RunFrom(a, events) == Some(c) && c.polls[i].response == response
    requires Covered(a, events, i, response, limit, c.polls[i].next)
    ensures Covered(a, events + [Answer(i, v)], i, response, limit, c.polls[i].next + 1)
  {
    CoveredStays(a, events, Answer(i, v), i, response, limit, c.polls[i].next);
    AnswerCounts(a, events, i, v, c);
  }

  lemma AnswerKnows(a: Agent, events: seq<Event>, c: Agent, i: nat, v: Verdict)
    requires Enabled(c, Answer(i, v)) && RunFrom(a, events) == Some(c) && SeenKnown(a, events, c, i)
    ensures SeenKnown(a, events + [Answer(i, v)], Next(c, Answer(i, v)), i)
  {
    AnswerCounts(a, events, i, v, c);
    var p := c.polls[i];
    forall id | id in Next(c, Answer(i, v)).tracker.seen
      ensures id in c.tracker.seen || AnsweredIn(a, events + [Answer(i, v)], i, id)
    {
      SettleSees(c.tracker, p.response[p.next], v, id);
    }
    SeenStaysKnown(a, events, Answer(i, v), c, Next(c, Answer(i, v)), i);
  }

  lemma AnswerTracks(a: Agent, events: seq<Event>, c: Agent, i: nat, v: Verdict, response: seq<Job>, limit: nat)
    requires Tracks(a, events, c, i, response, limit) && Enabled(c, Answer(i, v)) && RunFrom(a, events) == Some(c)
    ensures Tracks(a, events + [Answer(i, v)], Next(c, Answer(i, v)), i, response, limit)
  {
    StepKeepsInv(c, Answer(i, v));
    AnswerCovers(a, events, c, i, v, response, limit);
    AnswerKnows(a, events, c, i, v);
  }

  lemma CallTracks(a: Agent, events: seq<Event>, c: Agent, i: nat, e: Event, response: seq<Job>, limit: nat)
    requires Tracks(a, events, c, i, response, limit) && Enabled(c, e) && e.Call? && c.polls[i] != Returned
    ensures Tracks(a, events + [e], Next(c, e), i, response, limit)
  {
    ActiveIsAlone(c, i, e);
    StepKeepsInv(c, e);
    CoveredStays(a, events, e, i, response, limit, c.polls[i].next);
    SeenStaysKnown(a, events, e, c, Next(c, e), i);
  }

  lemma StepTracks(a: Agent, events: seq<Event>, c: Agent, i: nat, e: Event, response: seq<Job>, limit: nat)
    requires Tracks(a, events, c, i, response, limit) && Enabled(c, e) && !e.Toggle? && RunFrom(a, events) == Some(c)
    ensures Tracks(a, events + [e], Next(c, e), i, response, limit)
  {
    if c.polls[i] == Returned {
      StepKeepsInv(c, e);
      ReturnedRests(c, i, e);
      CoveredStays(a, events, e, i, response, limit, |response|);
    } else if e.Call? {
      CallTracks(a, events, c, i, e, response, limit);
    } else {
      ActiveIsAlone(c, i, e);
      if e.Look? { LookTracks(a, events, c, i, response, limit); }
      if e.Answer? { AnswerTracks(a, events, c, i, e.verdict, response, limit); }
    }
  }

  lemma {:induction false} RunTracks(a: Agent, events: seq<Event>, i: nat, response: seq<Job>, limit: nat)
    requires Inv(a) && a.running && i < |a.polls| && a.polls[i] == Looping(response, limit, 0)
    requires RunFrom(a, events).Some? && forall e :: e in events ==> !e.Toggle?
    ensures Tracks(a, events, RunFrom(a, events).value, i, response, limit)
  {
    if events != [] {
      var before, e := events[..|events| - 1], events[|events| - 1];
      assert events == before + [e];
      RunTracks(a, before, i, response, limit);
      StepTracks(a, before, RunFrom(a, before).value, i, e, response, limit);
    }
  }

  /** Job n of the response is within the limit, has an id and is not seen. */
  predicate MayBePut(b: Agent, response: seq<Job>, limit: nat, n: nat) {
    n < limit && n < |response| && response[n].id != "" && response[n].id !in b.tracker.seen
  }

  /** A poll that is not stopped puts every job within its limit to the handler that has an id and is
      neither seen already nor was answered before in the same poll, and only ever such a job. */
  lemma EveryJobIsHandled(a: Agent, events: seq<Event>, i: nat, response: seq<Job>, limit: nat, j: nat)
    requires Inv(a) && a.running && i < |a.polls| && a.polls[i] == Looping(response, limit, 0)
    requires RunFrom(a, events).Some? && forall e :: e in events ==> !e.Toggle?
    requires j < |response| && j < limit && response[j].id != "" && response[j].id !in a.tracker.seen
    ensures var b := RunFrom(a, events).value;
      && i < |b.polls| && (b.polls[i] == Returned ==> AnsweredIn(a, events, i, response[j].id))
      && (b.polls[i].Awaiting? ==> MayBePut(b, response, limit, b.polls[i].next))
  {
    RunTracks(a, events, i, response, limit);
    var b := RunFrom(a, events).value;
    assert AwaitsUnseen(b.polls[i], b.tracker.seen);
  }

  // ---- how a poll begins and ends ----

  /** A call begins a poll exactly if there is a handler and no poll is under way. */
  lemma CallExactly(a: Agent, hasHandler: bool)
    requires OnePoll(a.polls, a.polling)
    ensures var v := Next(a, Call(hasHandler));
      var begins := hasHandler && forall k :: 0 <= k < |a.polls| ==> a.polls[k] == Returned;
      v.polls == a.polls + [if begins then Fetching else Returned] && v.tracker == a.tracker
  {
  }

  /** A poll whose agent was stopped, or that is through its limit or its response, ends; then exactly
      the counters of jobs in the whole response are kept, unchanged, and the newest 10000 seen ids. */
  lemma PollEndsExactly(a: Agent, i: nat, id: string)
    requires Enabled(a, Look(i))
    ensures var p, v := a.polls[i], Next(a, Look(i));
      && (v.polls[i] == Returned <==> !a.running || p.next >= p.limit || p.next >= |p.response|)
      && (v.polls[i] == Returned ==>
            && Attempts(v.tracker.failures, id) == (if id != "" && (exists j :: j in p.response && j.id == id)
                                                    then Attempts(a.tracker.failures, id) else 0)
            && exists gone: seq<string> :: a.tracker.seen == gone + v.tracker.seen && |v.tracker.seen| <= 10000
                                           && (gone != [] ==> |v.tracker.seen| == 10000))
      && (v.polls[i] != Returned ==> v.tracker == a.tracker)
  {
    var p, v := a.polls[i], Next(a, Look(i));
    var n := if |a.tracker.seen| > MAX_SEEN_JOBS then |a.tracker.seen| - MAX_SEEN_JOBS else 0;
    assert a.tracker.seen == a.tracker.seen[..n] + Newest(a.tracker.seen, MAX_SEEN_JOBS);
    assert id in Ids(p.response) <==> id != "" && exists j :: j in p.response && j.id == id;
  }

  /** The response of a fetch is looked at from its start; a fetch that fails ends the poll. */
  lemma FetchExactly(a: Agent, i: nat, response: seq<Job>, limit: nat)
    requires Enabled(a, Fetched(i, response, limit))
    ensures Next(a, Fetched(i, response, limit)).polls[i] == Looping(response, limit, 0)
    ensures Next(a, FetchFailed(i)).polls[i] == Returned
    ensures Next(a, Fetched(i, response, limit)).tracker == a.tracker == Next(a, FetchFailed(i)).tracker
  {
  }
}
