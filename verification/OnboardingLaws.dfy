/** How far a run of the onboarding gets and what it does, told stage by stage. */
module OnboardingLaws {
  import opened Prelude
  import opened Onboarding

  /** The platform says that the challenge expired. */
  predicate Expired(r: Reply) { r.Refused? && (r.code == "SIGNATURE_INVALID" || r.status == 401) }

  /** The platform says that the agent is registered already. */
  predicate AlreadyThere(r: Reply) { r.Refused? && r.status == 409 }

  /** An accepted registration goes through, and one refused for anything but an expired challenge does
      not. After an expired one the agent authenticates again: if that is accepted the second
      registration decides, otherwise the refusal of the authentication itself, and either counts as
      accepted if it says that the agent is there already. */
  lemma RegistrationExactly(run: Run)
    ensures run.first.Accepted? ==> Registers(run)
    ensures run.first.Refused? && !Expired(run.first) ==> !Registers(run)
    ensures Expired(run.first) && run.auth.Accepted? ==> (Registers(run) <==> run.second.Accepted? || AlreadyThere(run.second))
    ensures Expired(run.first) && run.auth.Refused? ==> (Registers(run) <==> AlreadyThere(run.auth))
  {
  }

  function HookOf(run: Run, t: Stage): Hook {
    match t
    case VdxfPublished => run.publish
    case VdxfVerified => run.verify
    case Indexed => run.waitIndexed
    case _ => Returns
  }

  /** There is something to do towards the stage. */
  predicate HasWork(run: Run, t: Stage) {
    match t
    case ProfileRegistered => run.hasProfile
    case ServicesRegistered => |run.services| > 0
    case Onboarded => false
    case Ready => false
    case _ => !HookOf(run, t).Absent?
  }

  /** Nothing done towards the stage fails. */
  predicate GoesWell(run: Run, t: Stage) {
    match t
    case ProfileRegistered => run.hasProfile ==> Registers(run)
    case ServicesRegistered => forall k :: 0 <= k < |run.services| ==> run.services[k].1
    case _ => !HookOf(run, t).Throws?
  }

  /** The run passes every stage after s and before t. */
  predicate Arrives(s: Stage, run: Run, t: Stage) {
    Rank(s) < Rank(t) && forall u: Stage :: Rank(s) < Rank(u) < Rank(t) ==> GoesWell(run, u) && run.persists(u)
  }

  lemma SuccIsNext(s: Stage, t: Stage)
    requires Rank(s) < Rank(t)
    ensures s != Ready && Rank(Succ(s)) <= Rank(t) && (Rank(Succ(s)) == Rank(t) ==> Succ(s) == t)
  {
  }

  lemma WorkGoesWell(run: Run, t: Stage)
    ensures Work(t, run).1 <==> GoesWell(run, t)
  {
  }

  lemma ArrivesStep(s: Stage, run: Run, t: Stage)
    requires s != Ready
    ensures Arrives(s, run, t) <==> t == Succ(s) || (GoesWell(run, Succ(s)) && run.persists(Succ(s)) && Arrives(Succ(s), run, t))
  {
    if Rank(s) < Rank(t) { SuccIsNext(s, t); }
    forall u | Rank(s) < Rank(u) ensures u == Succ(s) || Rank(Succ(s)) < Rank(u) { SuccIsNext(s, u); }
  }

  /** A run reaches a stage exactly if it goes well and persists at every stage up to it. */
  lemma {:induction false} ReachesExactly(s: Stage, run: Run, t: Stage)
    requires Rank(s) < Rank(t)
    ensures Rank(Finish(s, run).0) >= Rank(t) <==> Arrives(s, run, t) && GoesWell(run, t) && run.persists(t)
    decreases 6 - Rank(s)
  {
    SuccIsNext(s, t);
    WorkGoesWell(run, Succ(s));
    FinishUnfolds(s, run);
    FinishRanks(Succ(s), run);
    ArrivesStep(s, run, t);
    if Succ(s) != t { ReachesExactly(Succ(s), run, t); }
  }

  lemma {:induction false} FinishRanks(s: Stage, run: Run)
    ensures Rank(Finish(s, run).0) >= Rank(s)
    decreases 6 - Rank(s)
  {
    if s != Ready { FinishRanks(Succ(s), run); }
  }

  /** The service is handed in, registers, and so do all before it. */
  predicate ServiceGetsIn(services: seq<(string, bool)>, name: string) {
    exists k :: 0 <= k < |services| && services[k].0 == name && forall j :: 0 <= j <= k ==> services[j].1
  }

  /** What is observed towards a stage the run arrives at. */
  predicate Happens(run: Run, e: Event) {
    match e
    case Called(t) => HasWork(run, t)
    case Completed(t) => HasWork(run, t) && GoesWell(run, t)
    case Deferred(t) => !HasWork(run, t) && t != Ready && t != Onboarded
    case ServiceRegistered(t, name) => t == ServicesRegistered && ServiceGetsIn(run.services, name)
    case Persisted(t) => GoesWell(run, t) && run.persists(t)
  }

  lemma {:induction false} NamesExactly(services: seq<(string, bool)>, e: Event)
    ensures e in Names(services) <==> e.ServiceRegistered? && e.target == ServicesRegistered && ServiceGetsIn(services, e.name)
  {
    if services != [] && services[0].1 {
      var rest := services[1..];
      NamesExactly(rest, e);
      if e.ServiceRegistered? {
        if ServiceGetsIn(rest, e.name) {
          var k :| 0 <= k < |rest| && rest[k].0 == e.name && forall j :: 0 <= j <= k ==> rest[j].1;
          assert services[k + 1].0 == e.name;
          forall j | 0 <= j <= k + 1 ensures services[j].1 { if j > 0 { assert services[j] == rest[j - 1]; } }
        }
        if ServiceGetsIn(services, e.name) {
          var k :| 0 <= k < |services| && services[k].0 == e.name && forall j :: 0 <= j <= k ==> services[j].1;
          if k > 0 { assert rest[k - 1].0 == e.name && forall j :: 0 <= j <= k - 1 ==> rest[j] == services[j + 1]; }
        }
      }
    }
  }

  lemma WorkExactly(run: Run, t: Stage, e: Event)
    ensures e in Work(t, run).0 <==> e.target == t && !e.Persisted? && Happens(run, e)
  {
    NamesExactly(run.services, e);
  }

  /** A run does, towards exactly the stages it arrives at, what there is to do: it calls, completes,
      registers service by service, defers and persists, and nothing else. */
  lemma {:induction false} EventsExactly(s: Stage, run: Run, e: Event)
    ensures e in Finish(s, run).1 <==> Arrives(s, run, e.target) && Happens(run, e)
    decreases 6 - Rank(s)
  {
    if s != Ready {
      var n := Succ(s);
      FinishUnfolds(s, run);
      WorkGoesWell(run, n);
      WorkExactly(run, n, e);
      EventsExactly(n, run, e);
      ArrivesStep(s, run, e.target);
    }
  }

  /** A run from a missing or unreadable state file does what a run from the start does. */
  lemma UnreadableStartsOver(f: File, run: Run)
    requires !f.Saved?
    ensures Finish(StageOf(f), run) == Finish(Onboarded, run)
  {
  }
}
