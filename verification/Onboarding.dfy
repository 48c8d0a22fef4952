/** The resumable stage machine that finalizes an agent's onboarding. */
module Onboarding {
  import opened Prelude

  datatype Stage = Onboarded | VdxfPublished | VdxfVerified | Indexed | ProfileRegistered | ServicesRegistered | Ready

  function Rank(s: Stage): nat {
    match s
    case Onboarded => 0
    case VdxfPublished => 1
    case VdxfVerified => 2
    case Indexed => 3
    case ProfileRegistered => 4
    case ServicesRegistered => 5
    case Ready => 6
  }

  function Succ(s: Stage): (t: Stage)
    requires s != Ready
    ensures Rank(t) == Rank(s) + 1
  {
    match s
    case Onboarded => VdxfPublished
    case VdxfPublished => VdxfVerified
    case VdxfVerified => Indexed
    case Indexed => ProfileRegistered
    case ProfileRegistered => ServicesRegistered
    case ServicesRegistered => Ready
  }

  /** The state file; an unreadable one, or one with an unknown stage, is corrupt. */
  datatype File = Missing | Corrupt | Saved(stage: Stage)

  function StageOf(f: File): Stage { if f.Saved? then f.stage else Onboarded }

  datatype Hook = Absent | Returns | Throws

  datatype Reply = Accepted | Refused(code: string, status: int)

  /** What the world does in one run: the hooks, whether there is a profile and how the platform
      answers its registration, a re-authentication and a second registration, the services with
      whether each registers, and whether the process lives to persist a stage. */
  datatype Run = Run(publish: Hook, verify: Hook, waitIndexed: Hook, hasProfile: bool, first: Reply, auth: Reply,
                     second: Reply, services: seq<(string, bool)>, persists: Stage -> bool)

  /** What is observed of the work towards a stage. */
  datatype Event =
    | Called(target: Stage)
    | ServiceRegistered(target: Stage, name: string)
    | Completed(target: Stage)
    | Deferred(target: Stage)
    | Persisted(target: Stage)

  /** Whether registering the profile ends well: after an expired challenge it is tried once more,
      and then an agent already registered is no failure. */
  predicate Registers(run: Run) {
    || run.first.Accepted?
    || ((run.first.code == "SIGNATURE_INVALID" || run.first.status == 401) &&
        if run.auth.Accepted? then run.second.Accepted? || run.second.status == 409 else run.auth.status == 409)
  }

  function Names(services: seq<(string, bool)>): seq<Event> {
    if services == [] || !services[0].1 then []
    else [ServiceRegistered(ServicesRegistered, services[0].0)] + Names(services[1..])
  }

  predicate AllRegister(services: seq<(string, bool)>) { forall i :: 0 <= i < |services| ==> services[i].1 }

  function HookEvents(h: Hook, t: Stage): seq<Event> {
    match h
    case Absent => [Deferred(t)]
    case Returns => [Called(t), Completed(t)]
    case Throws => [Called(t)]
  }

  function ProfileEvents(run: Run): seq<Event> {
    if !run.hasProfile then [Deferred(ProfileRegistered)]
    else [Called(ProfileRegistered)] + if Registers(run) then [Completed(ProfileRegistered)] else []
  }

  function ServiceEvents(run: Run): seq<Event> {
    if run.services == [] then [Deferred(ServicesRegistered)]
    else [Called(ServicesRegistered)] + Names(run.services) +
         if AllRegister(run.services) then [Completed(ServicesRegistered)] else []
  }

  /** The work towards a stage, and whether it ends well. */
  function Work(t: Stage, run: Run): (seq<Event>, bool) {
    match t
    case Onboarded => ([], true)
    case VdxfPublished => (HookEvents(run.publish, t), run.publish != Throws)
    case VdxfVerified => (HookEvents(run.verify, t), run.verify != Throws)
    case Indexed => (HookEvents(run.waitIndexed, t), run.waitIndexed != Throws)
    case ProfileRegistered => (ProfileEvents(run), !run.hasProfile || Registers(run))
    case ServicesRegistered => (ServiceEvents(run), AllRegister(run.services))
    case Ready => ([], true)
  }

  /** The stage a run reaches from a stage, and what it does on the way. */
  function Finish(s: Stage, run: Run): (Stage, seq<Event>)
    decreases 6 - Rank(s)
  {
    if s == Ready then (s, [])
    else
      var t := Succ(s);
      var (events, done) := Work(t, run);
      if !done || !run.persists(t) then (s, events)
      else
        var (reached, rest) := Finish(t, run);
        (reached, events + [Persisted(t)] + rest)
  }

  /** What is still to come from a stage, appended to what happened, is what a whole run does. */
  ghost predicate OnTrack(before: seq<Event>, start: Stage, log: seq<Event>, stage: Stage, run: Run) {
    && Finish(stage, run).0 == Finish(start, run).0
    && log + Finish(stage, run).1 == before + Finish(start, run).1
  }

  lemma FinishUnfolds(s: Stage, run: Run)
    requires s != Ready
    ensures var t := Succ(s); var w := Work(t, run);
      Finish(s, run) == if w.1 && run.persists(t) then (Finish(t, run).0, w.0 + [Persisted(t)] + Finish(t, run).1) else (s, w.0)
  {
  }

  lemma StaysOnTrack(before: seq<Event>, start: Stage, log: seq<Event>, stage: Stage, run: Run)
    requires OnTrack(before, start, log, stage, run) && stage != Ready
    ensures var t := Succ(stage); var w := Work(t, run);
      if w.1 && run.persists(t) then OnTrack(before, start, log + w.0 + [Persisted(t)], t, run)
      else stage == Finish(start, run).0 && log + w.0 == before + Finish(start, run).1
  {
    var t := Succ(stage);
    var w := Work(t, run);
    FinishUnfolds(stage, run);
    if w.1 && run.persists(t) {
      assert log + w.0 + [Persisted(t)] + Finish(t, run).1 == log + (w.0 + [Persisted(t)] + Finish(t, run).1);
    }
  }

  class Finalizer {
    var file: File
    var log: seq<Event>

    constructor (file: File)
      ensures this.file == file && log == []
    {
      this.file, log := file, [];
    }

    method Mark(t: Stage, run: Run) returns (ok: bool)
      modifies this
      ensures ok == run.persists(t)
      ensures file == (if ok then Saved(t) else old(file)) && log == old(log) + if ok then [Persisted(t)] else []
    {
      ok := run.persists(t);
      if ok { file, log := Saved(t), log + [Persisted(t)]; }
    }

    method CallHook(h: Hook, t: Stage) returns (ok: bool)
      modifies this`log
      ensures ok == (h != Throws) && log == old(log) + HookEvents(h, t)
    {
      if h == Absent {
        log := log + [Deferred(t)];
        return true;
      }
      log := log + [Called(t)];
      if h == Throws { return false; }
      log := log + [Completed(t)];
      return true;
    }

    method RegisterProfile(run: Run) returns (ok: bool)
      modifies this`log
      ensures ok == (!run.hasProfile || Registers(run)) && log == old(log) + ProfileEvents(run)
    {
      if !run.hasProfile {
        log := log + [Deferred(ProfileRegistered)];
        return true;
      }
      log := log + [Called(ProfileRegistered)];
      if run.first.Refused? {
        if run.first.code != "SIGNATURE_INVALID" && run.first.status != 401 { return false; }
        var last := if run.auth.Accepted? then run.second else run.auth;
        if last.Refused? && last.status != 409 { return false; }
      }
      log := log + [Completed(ProfileRegistered)];
      return true;
    }

    method RegisterEach(services: seq<(string, bool)>) returns (ok: bool)
      modifies this`log
      ensures ok == AllRegister(services) && log == old(log) + Names(services)
    {
      ghost var start := log;
      for i := 0 to |services|
        invariant AllRegister(services[..i])
        invariant log + Names(services[i..]) == start + Names(services)
      {
        assert services[i..][1..] == services[i + 1..];
        if !services[i].1 {
          assert Names(services[i..]) == [] && log + [] == log;
          return false;
        }
        log := log + [ServiceRegistered(ServicesRegistered, services[i].0)];
      }
      assert services[..|services|] == services && services[|services|..] == [];
      assert log + [] == log;
      return true;
    }

    method RegisterServices(run: Run) returns (ok: bool)
      modifies this`log
      ensures ok == AllRegister(run.services) && log == old(log) + ServiceEvents(run)
    {
      if run.services == [] {
        log := log + [Deferred(ServicesRegistered)];
        return true;
      }
      log := log + [Called(ServicesRegistered)];
      ok := RegisterEach(run.services);
      if ok { log := log + [Completed(ServicesRegistered)]; }
    }

    method DoWork(t: Stage, run: Run) returns (ok: bool)
      modifies this`log
      ensures ok == Work(t, run).1 && log == old(log) + Work(t, run).0
    {
      match t
      case Onboarded => ok := true;
      case VdxfPublished => ok := CallHook(run.publish, t);
      case VdxfVerified => ok := CallHook(run.verify, t);
      case Indexed => ok := CallHook(run.waitIndexed, t);
      case ProfileRegistered => ok := RegisterProfile(run);
      case ServicesRegistered => ok := RegisterServices(run);
      case Ready => ok := true;
    }

    /** The work of one stage and the mark after it. */
    method Advance(stage: Stage, run: Run, ghost before: seq<Event>, ghost start: Stage) returns (ok: bool)
      requires stage != Ready && StageOf(file) == stage && OnTrack(before, start, log, stage, run)
      modifies this
      ensures ok ==> file == Saved(Succ(stage)) && OnTrack(before, start, log, Succ(stage), run)
      ensures !ok ==> file == old(file) && stage == Finish(start, run).0 && log == before + Finish(start, run).1
    {
      StaysOnTrack(before, start, log, stage, run);
      ok := DoWork(Succ(stage), run);
      if ok { ok := Mark(Succ(stage), run); }
    }

    /** One run, which ends where it fails or dies. */
    method FinalizeOnboarding(run: Run)
      modifies this
      ensures log == old(log) + Finish(StageOf(old(file)), run).1
      ensures StageOf(file) == Finish(StageOf(old(file)), run).0
      ensures file == old(file) || file.Saved?
    {
      var stage, start := StageOf(file), StageOf(file);
      ghost var before := log;
      var ok;
      if stage == Onboarded {
        ok := Advance(stage, run, before, start);
        if !ok { return; }
        stage := VdxfPublished;
      }
      if stage == VdxfPublished {
        ok := Advance(stage, run, before, start);
        if !ok { return; }
        stage := VdxfVerified;
      }
      if stage == VdxfVerified {
        ok := Advance(stage, run, before, start);
        if !ok { return; }
        stage := Indexed;
      }
      if stage == Indexed {
        ok := Advance(stage, run, before, start);
        if !ok { return; }
        stage := ProfileRegistered;
      }
      if stage == ProfileRegistered {
        ok := Advance(stage, run, before, start);
        if !ok { return; }
        stage := ServicesRegistered;
      }
      if stage == ServicesRegistered {
        ok := Advance(stage, run, before, start);
        if !ok { return; }
      }
      assert Finish(Ready, run) == (Ready, []);
      assert log + [] == log;
    }
  }

  // ---- sequences of runs ----

  /** The stage and the log after runs from a missing or corrupt file. */
  function After(runs: seq<Run>): (Stage, seq<Event>) {
    if runs == [] then (Onboarded, [])
    else
      var (stage, log) := After(runs[..|runs| - 1]);
      var (reached, events) := Finish(stage, runs[|runs| - 1]);
      (reached, log + events)
  }

  /** Once a stage is persisted, everything that follows is work towards later stages. */
  predicate Forward(log: seq<Event>) {
    forall j, k :: 0 <= j < k < |log| && log[j].Persisted? ==> Rank(log[k].target) > Rank(log[j].target)
  }

  /** Before a stage is persisted its work was completed, or deferred for want of a hook. */
  predicate Earned(log: seq<Event>) {
    forall k :: 0 <= k < |log| && log[k].Persisted? && log[k].target != Ready ==>
      exists j :: 0 <= j < k && (log[j] == Completed(log[k].target) || log[j] == Deferred(log[k].target))
  }

  /** Exactly the stages up to the current one are persisted. */
  predicate Reached(stage: Stage, log: seq<Event>) {
    forall t :: Persisted(t) in log <==> 0 < Rank(t) <= Rank(stage)
  }

  predicate Concerns(log: seq<Event>, t: Stage) { forall k :: 0 <= k < |log| ==> log[k].target == t && !log[k].Persisted? }

  lemma {:induction false} NamesConcernServices(services: seq<(string, bool)>)
    ensures Concerns(Names(services), ServicesRegistered)
  {
    if services != [] && services[0].1 { NamesConcernServices(services[1..]); }
  }

  lemma WorkConcerns(t: Stage, run: Run)
    ensures Concerns(Work(t, run).0, t)
    ensures Work(t, run).1 && t != Ready && t != Onboarded ==> Completed(t) in Work(t, run).0 || Deferred(t) in Work(t, run).0
  {
    NamesConcernServices(run.services);
  }

  ghost predicate Good(stage: Stage, log: seq<Event>) { Forward(log) && Earned(log) && Reached(stage, log) }

  lemma EarnedPersist(log: seq<Event>, t: Stage)
    requires Earned(log) && (t != Ready ==> Completed(t) in log || Deferred(t) in log)
    ensures Earned(log + [Persisted(t)])
  {
    var more := log + [Persisted(t)];
    forall k | 0 <= k < |more| && more[k].Persisted? && more[k].target != Ready
      ensures exists j :: 0 <= j < k && (more[j] == Completed(more[k].target) || more[j] == Deferred(more[k].target))
    {
      if k < |log| {
        var j :| 0 <= j < k && (log[j] == Completed(log[k].target) || log[j] == Deferred(log[k].target));
        assert more[j] == log[j];
      } else {
        var j :| 0 <= j < |log| && (log[j] == Completed(t) || log[j] == Deferred(t));
        assert more[j] == log[j];
      }
    }
  }

  lemma PersistKeeps(stage: Stage, log: seq<Event>)
    requires Good(stage, log) && stage != Ready
    requires Succ(stage) != Ready ==> Completed(Succ(stage)) in log || Deferred(Succ(stage)) in log
    ensures Good(Succ(stage), log + [Persisted(Succ(stage))])
  {
    var t := Succ(stage);
    var more := log + [Persisted(t)];
    EarnedPersist(log, t);
    forall u ensures Persisted(u) in more <==> 0 < Rank(u) <= Rank(t) {
      assert Persisted(u) in more <==> Persisted(u) in log || u == t;
      assert Rank(u) == Rank(t) ==> u == t;
    }
    forall j | 0 <= j < |log| && log[j].Persisted? ensures Rank(t) > Rank(log[j].target) {
      assert Persisted(log[j].target) in log;
    }
  }

  lemma WorkKeeps(stage: Stage, log: seq<Event>, events: seq<Event>)
    requires Good(stage, log) && stage != Ready && Concerns(events, Succ(stage))
    ensures Good(stage, log + events)
  {
    var more := log + events;
    forall j, k | 0 <= j < k < |more| && more[j].Persisted? ensures Rank(more[k].target) > Rank(more[j].target) {
      if k >= |log| { assert more[k] == events[k - |log|] && Persisted(more[j].target) in log; }
    }
    forall k | 0 <= k < |more| && more[k].Persisted? && more[k].target != Ready
      ensures exists j :: 0 <= j < k && (more[j] == Completed(more[k].target) || more[j] == Deferred(more[k].target))
    {
      var j :| 0 <= j < k && (log[j] == Completed(log[k].target) || log[j] == Deferred(log[k].target));
      assert more[j] == log[j];
    }
    forall u ensures Persisted(u) in more <==> Persisted(u) in log {
      assert Persisted(u) !in events;
    }
  }

  lemma StepKeeps(stage: Stage, log: seq<Event>, run: Run)
    requires Good(stage, log) && stage != Ready
    ensures var t := Succ(stage); var w := Work(t, run);
      Good(stage, log + w.0) && (w.1 ==> Good(t, log + w.0 + [Persisted(t)]))
  {
    var t := Succ(stage);
    var w := Work(t, run);
    WorkConcerns(t, run);
    WorkKeeps(stage, log, w.0);
    if w.1 { PersistKeeps(stage, log + w.0); }
  }

  lemma {:induction false} FinishKeeps(stage: Stage, log: seq<Event>, run: Run)
    requires Good(stage, log)
    ensures Good(Finish(stage, run).0, log + Finish(stage, run).1) && Rank(Finish(stage, run).0) >= Rank(stage)
    decreases 6 - Rank(stage)
  {
    if stage == Ready {
      assert log + [] == log;
    } else {
      var t := Succ(stage);
      var w := Work(t, run);
      StepKeeps(stage, log, run);
      StaysOnTrack(log, stage, log, stage, run);
      if w.1 && run.persists(t) { FinishKeeps(t, log + w.0 + [Persisted(t)], run); }
    }
  }

  /** Over any sequence of runs failing or dying anywhere: the persisted stage never goes back,
      exactly the stages up to it were persisted, each only after its work was done or deferred in
      some run, and no work towards a stage is ever repeated once the stage is persisted. */
  lemma {:induction false} ResumedRunsGoForward(runs: seq<Run>)
    ensures var (stage, log) := After(runs);
      && Forward(log) && Earned(log) && Reached(stage, log)
      && (runs != [] ==> Rank(stage) >= Rank(After(runs[..|runs| - 1]).0))
  {
    if runs != [] {
      var before := runs[..|runs| - 1];
      ResumedRunsGoForward(before);
      FinishKeeps(After(before).0, After(before).1, runs[|runs| - 1]);
    }
  }

  /** A run in which nothing fails. */
  predicate Clean(run: Run) {
    && run.publish != Throws && run.verify != Throws && run.waitIndexed != Throws
    && (!run.hasProfile || Registers(run)) && AllRegister(run.services)
    && forall t :: run.persists(t)
  }

  /** A clean run ends ready from every stage, and any run from ready does nothing. */
  lemma {:induction false} CleanRunsFinish(stage: Stage, run: Run)
    ensures Clean(run) ==> Finish(stage, run).0 == Ready
    ensures Finish(Ready, run) == (Ready, [])
    decreases 6 - Rank(stage)
  {
    if stage != Ready { CleanRunsFinish(Succ(stage), run); }
  }

  // ---- services and resumed runs ----

  /** What run i does. */
  function EventsOf(runs: seq<Run>, i: nat): seq<Event>
    requires i < |runs|
  {
    Finish(After(runs[..i]).0, runs[i]).1
  }

  predicate HandedIn(run: Run, names: seq<string>) {
    |run.services| == |names| && forall i :: 0 <= i < |names| ==> run.services[i].0 == names[i]
  }

  /** Every run is handed these services. */
  predicate AllHandedIn(runs: seq<Run>, names: seq<string>) { forall i :: 0 <= i < |runs| ==> HandedIn(runs[i], names) }

  predicate RegistersIn(runs: seq<Run>, i: nat, name: string) {
    i < |runs| && ServiceRegistered(ServicesRegistered, name) in EventsOf(runs, i)
  }

  ghost predicate RegisteredTwice(runs: seq<Run>) {
    exists i, j, name :: i < j && RegistersIn(runs, i, name) && RegistersIn(runs, j, name)
  }

  /** A run that works but for the given stage, which it does not live to persist. */
  function AllWell(names: seq<string>, dies: Option<Stage>): Run {
    Run(Returns, Returns, Returns, false, Accepted, Accepted, Accepted, Map((n: string) => (n, true), names),
        t => dies != Some(t))
  }

  lemma {:induction false} WorkIsReached(s: Stage, run: Run, t: Stage)
    requires Rank(s) < Rank(t)
    requires forall u :: Rank(s) < Rank(u) < Rank(t) ==> Work(u, run).1 && run.persists(u)
    ensures forall e :: e in Work(t, run).0 ==> e in Finish(s, run).1
    ensures !run.persists(t) ==> Rank(Finish(s, run).0) + 1 == Rank(t)
    decreases 6 - Rank(s)
  {
    var n := Succ(s);
    if n != t {
      SameRank(n, t);
      WorkIsReached(n, run, t);
    }
  }

  lemma SameRank(s: Stage, t: Stage)
    ensures Rank(s) == Rank(t) ==> s == t
  {
  }

  lemma AllWellWorks(names: seq<string>, dies: Option<Stage>, t: Stage)
    ensures Work(t, AllWell(names, dies)).1
  {
  }

  lemma FirstServiceRegisters(names: seq<string>, dies: Option<Stage>)
    requires names != []
    ensures ServiceRegistered(ServicesRegistered, names[0]) in Work(ServicesRegistered, AllWell(names, dies)).0
  {
    var run := AllWell(names, dies);
    var e := ServiceRegistered(ServicesRegistered, names[0]);
    assert run.services[0] == (names[0], true);
    assert Names(run.services)[0] == e;
    assert ServiceEvents(run)[1] == e;
  }

  lemma DyingRun(names: seq<string>)
    requires names != []
    ensures var (stage, events) := Finish(Onboarded, AllWell(names, Some(ServicesRegistered)));
      stage == ProfileRegistered && ServiceRegistered(ServicesRegistered, names[0]) in events
  {
    var run := AllWell(names, Some(ServicesRegistered));
    forall u ensures Work(u, run).1 { AllWellWorks(names, Some(ServicesRegistered), u); }
    WorkIsReached(Onboarded, run, ServicesRegistered);
    FirstServiceRegisters(names, Some(ServicesRegistered));
    SameRank(Finish(Onboarded, run).0, ProfileRegistered);
  }

  lemma ResumedRun(names: seq<string>)
    requires names != []
    ensures ServiceRegistered(ServicesRegistered, names[0]) in Finish(ProfileRegistered, AllWell(names, None)).1
  {
    WorkIsReached(ProfileRegistered, AllWell(names, None), ServicesRegistered);
    FirstServiceRegisters(names, None);
  }

  lemma EventsOfTwo(a: Run, b: Run)
    ensures EventsOf([a, b], 0) == Finish(Onboarded, a).1
    ensures EventsOf([a, b], 1) == Finish(Finish(Onboarded, a).0, b).1
  {
    assert [a, b][..0] == [] && [a, b][..1] == [a] && [a][..0] == [];
  }

  /** Dying between the registrations and their mark, then running again. */
  lemma DyingRepeatsRegistration(names: seq<string>)
    requires names != []
    ensures var runs := [AllWell(names, Some(ServicesRegistered)), AllWell(names, None)];
      AllHandedIn(runs, names) && RegistersIn(runs, 0, names[0]) && RegistersIn(runs, 1, names[0])
  {
    DyingRun(names);
    ResumedRun(names);
    EventsOfTwo(AllWell(names, Some(ServicesRegistered)), AllWell(names, None));
  }

  lemma {:induction false} NothingRegisters(s: Stage, run: Run)
    requires run.services == []
    ensures forall e :: e in Finish(s, run).1 ==> !e.ServiceRegistered?
    decreases 6 - Rank(s)
  {
    if s != Ready { NothingRegisters(Succ(s), run); }
  }

  /** Resuming may register a service again, and does so without any service failing: over all runs
      that are handed the same services, none is registered by two runs exactly if there are none. */
  lemma ServicesRepeatExactly(names: seq<string>)
    ensures (forall runs :: AllHandedIn(runs, names) ==> !RegisteredTwice(runs)) <==> names == []
  {
    if names == [] {
      forall runs | AllHandedIn(runs, names) ensures !RegisteredTwice(runs) {
        forall i, name | 0 <= i < |runs| ensures !RegistersIn(runs, i, name) {
          assert HandedIn(runs[i], names);
          NothingRegisters(After(runs[..i]).0, runs[i]);
        }
      }
    } else {
      DyingRepeatsRegistration(names);
      assert RegisteredTwice([AllWell(names, Some(ServicesRegistered)), AllWell(names, None)]);
    }
  }

  /** Once the services stage is persisted, no later run registers anything. */
  lemma MarkedServicesStay(runs: seq<Run>, i: nat, name: string)
    requires i < |runs| && Rank(After(runs[..i]).0) >= Rank(ServicesRegistered)
    ensures !RegistersIn(runs, i, name)
  {
    var s := After(runs[..i]).0;
    LateRunsRegisterNothing(s, runs[i]);
  }

  lemma LateRunsRegisterNothing(s: Stage, run: Run)
    requires Rank(s) >= Rank(ServicesRegistered)
    ensures forall e :: e in Finish(s, run).1 ==> !e.ServiceRegistered?
  {
    if s == ServicesRegistered { assert Finish(Ready, run) == (Ready, []); }
  }
}
