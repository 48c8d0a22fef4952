/** The job poll of J41Agent and its bounded retry of failed accepts. */
module JobPolling {
  import opened Prelude
  import opened FifoSet

  const MAX_SEEN_JOBS := 10000
  const MAX_ACCEPT_ATTEMPTS := 5

  /** A requested job; a missing id or jobHash is empty. */
  datatype Job = Job(id: string, jobHash: string)

  /** What became of one job: the decision of the handler, and for an accept whether the agent holds
      its signer and identity and whether signing and the platform's answer succeeded. */
  datatype Verdict = Accept(ready: bool, answered: bool) | Reject | Hold | Threw | NoHandler

  datatype Tracker = Tracker(seen: seq<string>, failures: map<string, nat>)

  function Attempts(failures: map<string, nat>, id: string): nat { if id in failures then failures[id] else 0 }

  function Ids(jobs: seq<Job>): set<string> { set j | j in jobs && j.id != "" :: j.id }

  /** A job that will not be tried again. */
  function Resolve(t: Tracker, id: string): Tracker {
    Tracker(if id in t.seen then t.seen else t.seen + [id], t.failures - {id})
  }

  function FailOnce(t: Tracker, id: string): Tracker {
    var attempts := Attempts(t.failures, id) + 1;
    if attempts >= MAX_ACCEPT_ATTEMPTS then Resolve(t, id) else t.(failures := t.failures[id := attempts])
  }

  predicate FailsAccept(job: Job, v: Verdict) { v.Accept? && v.ready && (job.jobHash == "" || !v.answered) }

  function Settle(t: Tracker, job: Job, v: Verdict): Tracker {
    if FailsAccept(job, v) then FailOnce(t, job.id)
    else if v.Reject? || v.NoHandler? || (v.Accept? && v.ready) then Resolve(t, job.id)
    else t
  }

  function Close(t: Tracker, response: seq<Job>): Tracker {
    Tracker(Newest(t.seen, MAX_SEEN_JOBS), Only(t.failures, Ids(response)))
  }

  /** The counters of the jobs in `ids`. */
  function Only(failures: map<string, nat>, ids: set<string>): map<string, nat> {
    map id | id in failures && id in ids :: failures[id]
  }

  /** pruneAcceptFailures: drops the counters of jobs that are not pending, and counts them. */
  method Prune(failures: map<string, nat>, stillPending: set<string>) returns (kept: map<string, nat>, pruned: nat)
    ensures kept == Only(failures, stillPending) && pruned == |failures.Keys - stillPending|
  {
    kept, pruned := failures, 0;
    var left := failures.Keys;
    ghost var dropped: set<string> := {};
    while left != {}
      invariant left <= failures.Keys && dropped == failures.Keys - stillPending - left
      invariant kept == failures - dropped && pruned == |dropped|
    {
      var id :| id in left;
      left := left - {id};
      if id !in stillPending {
        DropOne(failures, dropped, id);
        kept, pruned, dropped := kept - {id}, pruned + 1, dropped + {id};
      }
    }
    DropAll(failures, stillPending);
  }

  lemma DropOne(failures: map<string, nat>, dropped: set<string>, id: string)
    ensures failures - dropped - {id} == failures - (dropped + {id})
  {
    assert (failures - dropped - {id}).Keys == (failures - (dropped + {id})).Keys;
  }

  lemma DropAll(failures: map<string, nat>, ids: set<string>)
    ensures failures - (failures.Keys - ids) == Only(failures, ids)
  {
    assert (failures - (failures.Keys - ids)).Keys == Only(failures, ids).Keys;
  }

  /** A verdict touches its own job only. The job is seen afterwards exactly if it was rejected, has
      no handler, was accepted, or has failed its last attempt; a failure short of that counts one
      more attempt, anything else leaves the count alone or clears it. */
  lemma VerdictDecidesJob(t: Tracker, job: Job, v: Verdict, other: string)
    requires job.id !in t.seen && Attempts(t.failures, job.id) < 5
    ensures var u := Settle(t, job, v);
      && (other != job.id ==>
            (other in u.seen <==> other in t.seen) && Attempts(u.failures, other) == Attempts(t.failures, other))
      && (job.id in u.seen <==>
            v == Reject || v == NoHandler || (v == Accept(true, true) && job.jobHash != "")
            || (FailsAccept(job, v) && Attempts(t.failures, job.id) == 4))
      && (job.id in u.seen ==> job.id !in u.failures)
      && (job.id !in u.seen ==>
            Attempts(u.failures, job.id) == Attempts(t.failures, job.id) + if FailsAccept(job, v) then 1 else 0)
  {
  }

  class JobPoller {
    var polling: bool
    /** Insertion order of the seen set. */
    var seenJobIds: seq<string>
    var acceptFailures: map<string, nat>

    constructor ()
      ensures !polling && Now() == Tracker([], map[])
    {
      polling, seenJobIds, acceptFailures := false, [], map[];
    }

    ghost function Now(): Tracker
      reads this
    {
      Tracker(seenJobIds, acceptFailures)
    }

    /** The part of checkForJobs before its first await. */
    method Enter(hasHandler: bool) returns (entered: bool)
      modifies this`polling
      ensures entered == (hasHandler && !old(polling)) && polling == (old(polling) || entered)
    {
      if !hasHandler || polling { return false; }
      polling := true;
      return true;
    }

    method RecordAcceptFailure(id: string, maxAttempts: nat) returns (attempts: nat, giveUp: bool)
      modifies this`acceptFailures
      ensures attempts == Attempts(old(acceptFailures), id) + 1 && giveUp == (attempts >= maxAttempts)
      ensures acceptFailures == old(acceptFailures)[id := attempts]
    {
      attempts := (if id in acceptFailures then acceptFailures[id] else 0) + 1;
      giveUp := attempts >= maxAttempts;
      acceptFailures := acceptFailures[id := attempts];
    }

    method ClearAcceptFailure(id: string)
      modifies this`acceptFailures
      ensures acceptFailures == old(acceptFailures) - {id}
    {
      acceptFailures := acceptFailures - {id};
    }

    method PruneAcceptFailures(stillPending: set<string>) returns (pruned: nat)
      modifies this`acceptFailures
      ensures acceptFailures == Only(old(acceptFailures), stillPending)
      ensures pruned == |old(acceptFailures).Keys - stillPending|
    {
      acceptFailures, pruned := Prune(acceptFailures, stillPending);
    }

    method MarkSeen(id: string)
      modifies this`seenJobIds, this`acceptFailures
      ensures Now() == Resolve(old(Now()), id)
    {
      if id !in seenJobIds { seenJobIds := seenJobIds + [id]; }
      ClearAcceptFailure(id);
    }

    method RetryOrAbandon(id: string)
      modifies this`seenJobIds, this`acceptFailures
      ensures Now() == FailOnce(old(Now()), id)
    {
      var attempts, giveUp := RecordAcceptFailure(id, MAX_ACCEPT_ATTEMPTS);
      if giveUp {
        MarkSeen(id);
        assert acceptFailures == old(acceptFailures) - {id};
      }
    }

    /** One iteration of the poll's loop, once the handler and the platform have answered. */
    method HandleJob(job: Job, v: Verdict)
      modifies this`seenJobIds, this`acceptFailures
      ensures Now() == Settle(old(Now()), job, v)
    {
      match v
      case NoHandler => MarkSeen(job.id);
      case Reject => MarkSeen(job.id);
      case Hold =>
      case Threw =>
      case Accept(ready, answered) =>
        if !ready { return; }
        if job.jobHash == "" || !answered {
          RetryOrAbandon(job.id);
        } else {
          MarkSeen(job.id);
        }
    }

    method EvictSeen()
      modifies this`seenJobIds
      ensures seenJobIds == Newest(old(seenJobIds), MAX_SEEN_JOBS)
    {
      while |seenJobIds| > MAX_SEEN_JOBS
        invariant |seenJobIds| <= |old(seenJobIds)| && seenJobIds == old(seenJobIds)[|old(seenJobIds)| - |seenJobIds|..]
        invariant |old(seenJobIds)| > MAX_SEEN_JOBS ==> |seenJobIds| >= MAX_SEEN_JOBS
        invariant |old(seenJobIds)| <= MAX_SEEN_JOBS ==> seenJobIds == old(seenJobIds)
      {
        seenJobIds := seenJobIds[1..];
      }
    }

    /** The end of a poll whose response arrived. */
    method FinishPoll(response: seq<Job>)
      modifies this
      ensures !polling && Now() == Close(old(Now()), response)
    {
      EvictSeen();
      var pruned := PruneAcceptFailures(Ids(response));
      polling := false;
    }
  }

  // ---- interleaved polls ----

  /** Where one call of checkForJobs stands: awaiting the response, about to look at a job, awaiting
      a job's verdict, over. Only the first `limit` jobs of a response are looked at. */
  datatype Phase =
    | Fetching
    | Looping(response: seq<Job>, limit: nat, next: nat)
    | Awaiting(response: seq<Job>, limit: nat, next: nat)
    | Returned

  /** `inserted` and `failed` log the ids ever marked as seen and the failed accepts; `listed` holds
      the ids of the last poll that finished. */
  datatype Agent = Agent(tracker: Tracker, polling: bool, running: bool, polls: seq<Phase>,
                         inserted: seq<string>, failed: seq<string>, listed: set<string>)

  const Started := Agent(Tracker([], map[]), false, true, [], [], [], {})

  datatype Event =
    | Call(hasHandler: bool)
    | Fetched(i: nat, response: seq<Job>, limit: nat)
    | FetchFailed(i: nat)
    | Look(i: nat)
    | Answer(i: nat, verdict: Verdict)
    | Toggle

  predicate Enabled(a: Agent, e: Event) {
    match e
    case Call(_) => true
    case Fetched(i, _, _) => i < |a.polls| && a.polls[i].Fetching?
    case FetchFailed(i) => i < |a.polls| && a.polls[i].Fetching?
    case Look(i) => i < |a.polls| && a.polls[i].Looping?
    case Answer(i, _) => i < |a.polls| && a.polls[i].Awaiting? && a.polls[i].next < |a.polls[i].response|
    case Toggle => true
  }

  /** Whether a poll at its loop head is through. */
  predicate Through(a: Agent, p: Phase)
    requires p.Looping?
  {
    !a.running || p.next >= p.limit || p.next >= |p.response|
  }

  function Moved(a: Agent, i: nat, p: Phase): Agent
    requires i < |a.polls|
  {
    a.(polls := a.polls[i := p])
  }

  function Next(a: Agent, e: Event): Agent
    requires Enabled(a, e)
  {
    match e
    case Call(hasHandler) =>
      if hasHandler && !a.polling then a.(polling := true, polls := a.polls + [Fetching])
      else a.(polls := a.polls + [Returned])
    case Fetched(i, response, limit) => Moved(a, i, Looping(response, limit, 0))
    case FetchFailed(i) => Moved(a, i, Returned).(polling := false)
    case Look(i) =>
      var p := a.polls[i];
      if Through(a, p) then
        Moved(a, i, Returned).(polling := false, tracker := Close(a.tracker, p.response), listed := Ids(p.response))
      else if p.response[p.next].id == "" || p.response[p.next].id in a.tracker.seen then
        Moved(a, i, Looping(p.response, p.limit, p.next + 1))
      else Moved(a, i, Awaiting(p.response, p.limit, p.next))
    case Answer(i, v) =>
      var p := a.polls[i];
      var job := p.response[p.next];
      var t := Settle(a.tracker, job, v);
      Moved(a, i, Looping(p.response, p.limit, p.next + 1)).(
        tracker := t,
        inserted := a.inserted + t.seen[|a.tracker.seen|..],
        failed := if FailsAccept(job, v) then a.failed + [job.id] else a.failed)
    case Toggle => a.(running := !a.running)
  }

  function RunFrom(a: Agent, events: seq<Event>): Option<Agent> {
    if events == [] then Some(a)
    else
      match RunFrom(a, events[..|events| - 1])
      case None => None
      case Some(b) => if Enabled(b, events[|events| - 1]) then Some(Next(b, events[|events| - 1])) else None
  }

  // ---- what every interleaving keeps ----

  /** The guard is set exactly while one poll is under way, and never two are. */
  predicate OnePoll(polls: seq<Phase>, polling: bool) {
    && (forall i, j :: 0 <= i < j < |polls| ==> polls[i] == Returned || polls[j] == Returned)
    && (polling <==> exists i :: 0 <= i < |polls| && polls[i] != Returned)
  }

  /** Counters stay below the cap, and no seen job has one. */
  predicate CountersBounded(t: Tracker) {
    forall id :: id in t.failures ==> 1 <= t.failures[id] < MAX_ACCEPT_ATTEMPTS && id !in t.seen && id != ""
  }

  predicate Remembered(t: Tracker, inserted: seq<string>) {
    IsTail(t.seen, inserted, MAX_SEEN_JOBS) && Spaced(inserted, MAX_SEEN_JOBS)
  }

  /** A job being handled has an id and is not a seen one. */
  predicate AwaitsUnseen(p: Phase, seen: seq<string>) {
    p.Awaiting? ==> p.next < |p.response| && p.response[p.next].id != "" && p.response[p.next].id !in seen
  }

  ghost predicate Inv(a: Agent) {
    && OnePoll(a.polls, a.polling)
    && CountersBounded(a.tracker)
    && Remembered(a.tracker, a.inserted)
    && (forall i :: 0 <= i < |a.polls| ==> AwaitsUnseen(a.polls[i], a.tracker.seen))
    && (forall i :: 0 <= i < |a.polls| && a.polls[i].Fetching? ==> a.tracker.failures.Keys <= a.listed)
    && (!a.polling ==> a.tracker.failures.Keys <= a.listed)
  }

  lemma MoveKeepsOnePoll(a: Agent, i: nat, p: Phase)
    requires OnePoll(a.polls, a.polling) && i < |a.polls| && a.polls[i] != Returned
    ensures OnePoll(Moved(a, i, p).polls, p != Returned)
    ensures forall j :: 0 <= j < |a.polls| && j != i ==> a.polls[j] == Returned
  {
    forall j | 0 <= j < |a.polls| && j != i ensures a.polls[j] == Returned {
      if j < i {} else { assert a.polls[i] == Returned || a.polls[j] == Returned; }
    }
    if p != Returned { assert Moved(a, i, p).polls[i] != Returned; }
  }

  lemma SettleKeepsTracker(t: Tracker, inserted: seq<string>, job: Job, v: Verdict)
    requires CountersBounded(t) && Remembered(t, inserted) && job.id != "" && job.id !in t.seen
    ensures var u := Settle(t, job, v);
      && t.seen <= u.seen
      && CountersBounded(u) && Remembered(u, inserted + u.seen[|t.seen|..])
  {
    var u := Settle(t, job, v);
    if u.seen == t.seen + [job.id] {
      assert u.seen[|t.seen|..] == [job.id];
      InsertsStaySpaced(t.seen, inserted, [job.id], MAX_SEEN_JOBS);
      TailAfterInsert(t.seen, inserted, [job.id], MAX_SEEN_JOBS);
    } else {
      assert u.seen == t.seen;
      assert inserted + u.seen[|t.seen|..] == inserted;
    }
  }

  lemma AnswerKeepsInv(a: Agent, i: nat, v: Verdict)
    requires Inv(a) && Enabled(a, Answer(i, v))
    ensures Inv(Next(a, Answer(i, v)))
  {
    var p := a.polls[i];
    var job := p.response[p.next];
    assert AwaitsUnseen(p, a.tracker.seen);
    SettleKeepsTracker(a.tracker, a.inserted, job, v);
    AnsweredKeepsInv(a, i, Looping(p.response, p.limit, p.next + 1), Next(a, Answer(i, v)));
  }

  lemma AnsweredKeepsInv(a: Agent, i: nat, p: Phase, b: Agent)
    requires Inv(a) && i < |a.polls| && a.polls[i].Awaiting? && p.Looping?
    requires b.polls == a.polls[i := p] && b.polling == a.polling
    requires CountersBounded(b.tracker) && Remembered(b.tracker, b.inserted)
    ensures Inv(b)
  {
    MoveKeepsOnePoll(a, i, p);
    LonePoll(b, i);
  }

  /** The invariant when no other poll than the i-th is under way. */
  lemma LonePoll(b: Agent, i: nat)
    requires i < |b.polls| && b.polling && OnePoll(b.polls, b.polling)
    requires forall j :: 0 <= j < |b.polls| && j != i ==> b.polls[j] == Returned
    requires b.polls[i].Looping? && CountersBounded(b.tracker) && Remembered(b.tracker, b.inserted)
    ensures Inv(b)
  {
    forall j | 0 <= j < |b.polls| ensures AwaitsUnseen(b.polls[j], b.tracker.seen) && !b.polls[j].Fetching? {
      assert j == i || b.polls[j] == Returned;
    }
  }

  lemma CloseKeepsTracker(t: Tracker, inserted: seq<string>, response: seq<Job>)
    requires CountersBounded(t) && Remembered(t, inserted)
    ensures CountersBounded(Close(t, response)) && Remembered(Close(t, response), inserted)
    ensures Close(t, response).failures.Keys <= Ids(response)
  {
    NewestIsTail(t.seen, inserted, MAX_SEEN_JOBS);
    assert forall id :: id in Newest(t.seen, MAX_SEEN_JOBS) ==> id in t.seen;
  }

  lemma LookKeepsInv(a: Agent, i: nat)
    requires Inv(a) && Enabled(a, Look(i))
    ensures Inv(Next(a, Look(i)))
  {
    var b := Next(a, Look(i));
    MoveKeepsOnePoll(a, i, b.polls[i]);
    if Through(a, a.polls[i]) { CloseKeepsTracker(a.tracker, a.inserted, a.polls[i].response); }
  }

  lemma CallKeepsInv(a: Agent, hasHandler: bool)
    requires Inv(a)
    ensures Inv(Next(a, Call(hasHandler)))
  {
    var b := Next(a, Call(hasHandler));
    if hasHandler && !a.polling {
      assert b.polls[|a.polls|] != Returned;
      assert forall j :: 0 <= j < |a.polls| ==> a.polls[j] == Returned;
    } else if a.polling {
      var k :| 0 <= k < |a.polls| && a.polls[k] != Returned;
      assert b.polls[k] != Returned;
    }
  }

  lemma FetchKeepsInv(a: Agent, i: nat, p: Phase, b: Agent)
    requires Inv(a) && i < |a.polls| && a.polls[i].Fetching? && (p == Returned || p.Looping?)
    requires b == Moved(a, i, p).(polling := p != Returned)
    ensures Inv(b)
  {
    MoveKeepsOnePoll(a, i, p);
  }

  lemma StepKeepsInv(a: Agent, e: Event)
    requires Inv(a) && Enabled(a, e)
    ensures Inv(Next(a, e))
  {
    match e
    case Call(hasHandler) => CallKeepsInv(a, hasHandler);
    case Fetched(i, response, limit) => FetchedKeepsInv(a, i, response, limit);
    case FetchFailed(i) => FetchKeepsInv(a, i, Returned, Next(a, e));
    case Look(i) => LookKeepsInv(a, i);
    case Answer(i, v) => AnswerKeepsInv(a, i, v);
    case Toggle =>
  }

  lemma FetchedKeepsInv(a: Agent, i: nat, response: seq<Job>, limit: nat)
    requires Inv(a) && Enabled(a, Fetched(i, response, limit))
    ensures Inv(Next(a, Fetched(i, response, limit)))
  {
    assert a.polling;
    FetchKeepsInv(a, i, Looping(response, limit, 0), Next(a, Fetched(i, response, limit)));
  }

  lemma {:induction false} RunKeepsInv(a: Agent, events: seq<Event>)
    requires Inv(a) && RunFrom(a, events).Some?
    ensures Inv(RunFrom(a, events).value)
  {
    if events != [] {
      RunKeepsInv(a, events[..|events| - 1]);
      StepKeepsInv(RunFrom(a, events[..|events| - 1]).value, events[|events| - 1]);
    }
  }

  /** Under every interleaving of overlapping polls, stops and starts included: at most one poll is
      under way; every counter is in 1..MAX_ACCEPT_ATTEMPTS-1 and belongs to no seen job; between
      polls only ids of the last finished poll's response have one; and an id is marked as seen
      again only after MAX_SEEN_JOBS newer ones. */
  lemma PollingIsBounded(events: seq<Event>)
    requires RunFrom(Started, events).Some?
    ensures var a := RunFrom(Started, events).value;
      && OnePoll(a.polls, a.polling)
      && CountersBounded(a.tracker)
      && (!a.polling ==> a.tracker.failures.Keys <= a.listed)
      && Spaced(a.inserted, MAX_SEEN_JOBS)
  {
    var none: seq<string> := [];
    assert none[0..] == none;
    RunKeepsInv(Started, events);
  }

  /** A job that was marked as seen is put to the handler again only after MAX_SEEN_JOBS other ids
      were marked since. */
  lemma SeenJobsRest(events: seq<Event>, i: nat, k: nat)
    requires RunFrom(Started, events).Some?
    requires var a := RunFrom(Started, events).value;
      && i < |a.polls| && a.polls[i].Awaiting? && a.polls[i].next < |a.polls[i].response|
      && k < |a.inserted| && a.inserted[k] == a.polls[i].response[a.polls[i].next].id
    ensures |Elements(RunFrom(Started, events).value.inserted[k + 1..])| >= MAX_SEEN_JOBS
  {
    var none: seq<string> := [];
    assert none[0..] == none;
    RunKeepsInv(Started, events);
    var a := RunFrom(Started, events).value;
    assert AwaitsUnseen(a.polls[i], a.tracker.seen);
    MissingIsOld(a.tracker.seen, a.inserted, MAX_SEEN_JOBS, k);
  }

  // ---- how often one job fails ----

  function Count(ids: seq<string>, id: string): nat {
    if ids == [] then 0 else Count(ids[..|ids| - 1], id) + if ids[|ids| - 1] == id then 1 else 0
  }

  /** How many failed accepts are left to a job. */
  function Budget(t: Tracker, id: string): int {
    if id in t.seen then 0 else MAX_ACCEPT_ATTEMPTS - Attempts(t.failures, id)
  }

  /** The step forgets neither the job's counter nor that it was seen. */
  predicate Retains(a: Agent, e: Event, id: string)
    requires Enabled(a, e)
  {
    e.Look? && Through(a, a.polls[e.i]) ==>
      id in Ids(a.polls[e.i].response) && (id in a.tracker.seen ==> id in Newest(a.tracker.seen, MAX_SEEN_JOBS))
  }

  predicate RetainsThrough(a: Agent, events: seq<Event>, id: string)
    requires RunFrom(a, events).Some?
  {
    events == [] ||
    (RetainsThrough(a, events[..|events| - 1], id) &&
     Retains(RunFrom(a, events[..|events| - 1]).value, events[|events| - 1], id))
  }

  lemma SettleSpendsBudget(t: Tracker, job: Job, v: Verdict, id: string)
    requires CountersBounded(t) && job.id !in t.seen
    ensures var spent := if FailsAccept(job, v) && job.id == id then 1 else 0;
      Budget(Settle(t, job, v), id) + spent <= Budget(t, id)
  {
    if job.id != id {
      assert id in Settle(t, job, v).seen <==> id in t.seen;
      assert Attempts(Settle(t, job, v).failures, id) == Attempts(t.failures, id);
    }
  }

  lemma StepSpendsBudget(a: Agent, e: Event, id: string)
    requires Inv(a) && Enabled(a, e) && Retains(a, e, id)
    ensures Count(Next(a, e).failed, id) + Budget(Next(a, e).tracker, id) <= Count(a.failed, id) + Budget(a.tracker, id)
  {
    if e.Answer? {
      var p := a.polls[e.i];
      assert AwaitsUnseen(p, a.tracker.seen);
      SettleSpendsBudget(a.tracker, p.response[p.next], e.verdict, id);
      assert (a.failed + [p.response[p.next].id])[..|a.failed|] == a.failed;
    }
  }

  /** While finished polls keep listing a job and it is not evicted, it fails at most
      MAX_ACCEPT_ATTEMPTS accepts, less those its counter holds; a job that used them all up is
      seen, and a seen one fails none. */
  lemma {:induction false} FailedAcceptsAreBounded(a: Agent, events: seq<Event>, id: string)
    requires Inv(a) && RunFrom(a, events).Some? && RetainsThrough(a, events, id)
    ensures var b := RunFrom(a, events).value;
      && Count(b.failed, id) + Budget(b.tracker, id) <= Count(a.failed, id) + Budget(a.tracker, id)
      && Count(b.failed, id) - Count(a.failed, id) <= MAX_ACCEPT_ATTEMPTS
      && (Count(b.failed, id) - Count(a.failed, id) == MAX_ACCEPT_ATTEMPTS ==> id in b.tracker.seen)
      && (id in a.tracker.seen ==> Count(b.failed, id) == Count(a.failed, id))
  {
    RunKeepsInv(a, events);
    if events != [] {
      var before := events[..|events| - 1];
      FailedAcceptsAreBounded(a, before, id);
      RunKeepsInv(a, before);
      StepSpendsBudget(RunFrom(a, before).value, events[|events| - 1], id);
      StepNeverUnfails(RunFrom(a, before).value, events[|events| - 1], id);
    }
  }

  lemma StepNeverUnfails(a: Agent, e: Event, id: string)
    requires Enabled(a, e)
    ensures Count(Next(a, e).failed, id) >= Count(a.failed, id)
  {
    if e.Answer? {
      var p := a.polls[e.i];
      assert (a.failed + [p.response[p.next].id])[..|a.failed|] == a.failed;
    }
  }
}
