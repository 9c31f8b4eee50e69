/**
 Whole runs of the service (Daemon.cpp): what is owed to every process in every reachable state, which
 command breaks it, and what the shutdown leaves.
 */
module DaemonRuns {
  import opened Bytes
  import opened OsControl
  import opened StateMachine
  import opened Actuators
  import opened Daemon
  import opened DaemonWorld
  import AutoPolicy
  import AutoProtect

  /** The worlds along a run: each step can be taken and leads to the next of them. */
  ghost predicate IsRun(ws: seq<World>, steps: seq<Step>) {
    |ws| == |steps| + 1 &&
    forall i :: 0 <= i < |steps| ==> Enabled(ws[i], steps[i]) && ws[i + 1] == Taken(ws[i], steps[i])
  }

  function End(ws: seq<World>): World
    requires ws != []
  {
    ws[|ws| - 1]
  }

  /** A service that has just started: nothing is managed or throttled, and the processes are as they came. */
  predicate Initial(w: World) {
    w.d.sys.machines == map[] && w.d.adhoc == {} && w.adopted == {} && w.p.procs == w.d.sys.procs &&
    w.p.throttled == map[] && w.p.exempt == {} && w.p.level == AutoPolicy.CALM &&
    forall pid :: pid in w.d.sys.procs ==> Loose(w.d.sys.procs[pid])
  }

  // ------------------------------------------------------------- all runs

  lemma {:induction false} RunsStaySound(ws: seq<World>, steps: seq<Step>)
    requires IsRun(ws, steps) && Sound(ws[0]) && Unlisted(ws[0])
    ensures Sound(End(ws)) && Unlisted(End(ws))
  {
    if steps != [] {
      hide IsRun, Sound, Unlisted, Enabled, Taken;
      var n := |steps| - 1;
      RunsStaySound(ws[..n + 1], steps[..n]);
      StepIsSound(ws[n], steps[n]);
      StepIsUnlisted(ws[n], steps[n]);
    }
  }

  lemma InitialIsSound(w: World)
    requires Initial(w)
    ensures Sound(w) && Unlisted(w)
  {
    hide ThreadsKept, OwnPriority;
  }

  /** In every reachable state, whatever was adopted, every process is in order. */
  lemma ReachableIsSound(ws: seq<World>, steps: seq<Step>)
    requires IsRun(ws, steps) && Initial(ws[0])
    ensures Sound(End(ws)) && Unlisted(End(ws))
  {
    hide Sound, Unlisted;
    InitialIsSound(ws[0]);
    RunsStaySound(ws, steps);
  }

  /** Every live managed process is as its machine says. */
  predicate AllKept(s: System) {
    forall pid :: pid in s.machines ==> pid in s.procs && Kept(s.machines[pid], s.procs[pid])
  }

  /** Held by auto-protect: on the priority it set, strictly below an own one that it will give back; no thread held. */
  predicate HeldLow(e: Entry, p: Proc) {
    p.exited || (p.priority == e.current && EntryFits(e, p) && ThreadsKept(Normal, p.threads))
  }

  /**
   A process that is managed is not held too while it runs, and is as its machine says; one that is
   held is as its entry says; any other is left alone.
   */
  predicate InHand(w: World, pid: Pid) {
    pid in w.d.sys.procs &&
    var m, e, p := MachineOf(w.d.sys, pid), EntryOf(w.p.throttled, pid), w.d.sys.procs[pid];
    (m.Some? ==> (p.exited || e.None?) && Kept(m.value, p)) && (e.Some? ==> HeldLow(e.value, p)) &&
    (m.None? && e.None? ==> Loose(p))
  }

  lemma SoundIsInHand(w: World, pid: Pid)
    requires Sound(w) && pid !in w.adopted
    ensures pid in w.d.sys.procs || pid in w.d.sys.machines || pid in w.p.throttled ==> InHand(w, pid)
  {
    hide ThreadsKept, EntryFits, OwnPriority, AutoProtect.Tidy;
    assert pid in w.d.sys.procs ==>
      InOrder(MachineOf(w.d.sys, pid), EntryOf(w.p.throttled, pid), false, w.d.sys.procs[pid]);
  }

  lemma SoundIsKept(w: World)
    requires Sound(w) && w.adopted == {}
    ensures AllKept(w.d.sys)
  {
    hide Sound, Kept, HeldLow, Loose;
    var s := w.d.sys;
    forall pid | pid in s.machines ensures pid in s.procs && Kept(s.machines[pid], s.procs[pid]) {
      SoundIsInHand(w, pid);
    }
  }

  /**
   OS conservation, for the service as a whole. Of a process that was not adopted: live and managed, it is
   exactly as its machine says: while suspended, each thread that was there at the suspension carries
   exactly one extra suspension and each later one none; otherwise no thread carries any, and if
   throttled it is on idle priority. Live and not managed, it is not suspended by us, and on the
   priority auto-protect set strictly below an own one it will give back, or on an own one; the own ones are
   that it came with and the normal one. No protected process is managed, and auto-protect holds nothing
   exempt, nothing on the normal level and nothing when it is off.
   */
  lemma ReachableIsSafe(ws: seq<World>, steps: seq<Step>)
    requires IsRun(ws, steps) && Initial(ws[0])
    ensures var w := End(ws);
      (forall pid :: pid !in w.adopted && (pid in w.d.sys.procs || pid in w.d.sys.machines || pid in w.p.throttled) ==>
        InHand(w, pid)) &&
      NoneProtected(w.d.sys) && AutoProtect.Tidy(w.p)
  {
    hide InHand;
    ReachableIsSound(ws, steps);
    var w := End(ws);
    forall pid | pid !in w.adopted && (pid in w.d.sys.procs || pid in w.d.sys.machines || pid in w.p.throttled)
      ensures InHand(w, pid)
    {
      SoundIsInHand(w, pid);
    }
  }

  /**
   Thread by thread: in every reachable state, whatever was adopted, a live managed process that is
   suspended holds one extra suspension on each thread of the snapshot and none on a later one; in
   another state none, nor does a process that is not managed.
   */
  lemma ThreadsExactly(ws: seq<World>, steps: seq<Step>, pid: Pid, t: Tid)
    requires IsRun(ws, steps) && Initial(ws[0])
    ensures var s := End(ws).d.sys;
      pid in s.procs && !s.procs[pid].exited && t in s.procs[pid].threads ==>
        (var thread := s.procs[pid].threads[t];
         thread.count == thread.others + if StateOf(MachineOf(s, pid)).Suspended? && !thread.late then 1 else 0)
  {
    ReachableIsSound(ws, steps);
    hide EntryFits, OwnPriority, AutoProtect.Tidy;
    var w := End(ws);
    assert pid in w.d.sys.procs ==>
      InOrder(MachineOf(w.d.sys, pid), EntryOf(w.p.throttled, pid), pid in w.adopted, w.d.sys.procs[pid]);
  }

  /**
   An exemption lasts in the whole service too: a process that an administrator exempted in step n, and
   that was in the table whenever one was sampled under load since, is exempt and not held in any later state.
   */
  lemma {:induction false} ExemptionLasts(ws: seq<World>, steps: seq<Step>, n: nat, pid: Pid)
    requires IsRun(ws, steps) && Initial(ws[0]) && n < |steps| && steps[n].Exempt? && steps[n].pid == pid
    requires forall m :: n < m < |steps| ==> IsSeen(ws[m], steps[m], pid)
    ensures var p := End(ws).p; pid in p.exempt && pid !in p.throttled
  {
    hide Initial, Sound, Unlisted, Enabled, IsSeen, Taken;
    var last := |steps| - 1;
    ReachableIsSound(ws, steps);
    ReachableIsSound(ws[..last + 1], steps[..last]);
    if n < last {
      ExemptionLasts(ws[..last + 1], steps[..last], n, pid);
      StepKeepsExemption(ws[last], steps[last], pid);
    } else {
      ExemptNow(ws[n], steps[n]);
    }
    SoundIsTidy(End(ws));
  }

  lemma ExemptNow(w: World, step: Step)
    requires step.Exempt?
    ensures step.pid in Taken(w, step).p.exempt
  {
  }

  lemma SoundIsTidy(w: World)
    requires Sound(w)
    ensures w.p.throttled.Keys !! w.p.exempt
  {
  }

  // -------------------------------------------------------------- adoption

  /** A command takes a running process that auto-protect holds under management. */
  predicate Adopts(w: World, step: Step) {
    step.Command? && (step.verb.Throttle? || step.verb.Suspend?) &&
    Accepted(w.d, step.verb, w.names(step.pid), step.pid) && step.pid !in w.d.sys.machines &&
    step.pid in w.p.throttled && !Look(w.d.sys.procs, step.pid).exited
  }

  lemma CommandAdds(d: Service, verb: Verb, name: string, pid: Pid, percent: real, luck: Pid -> Luck)
    ensures var r := Commanded(d, verb, name, pid, true, percent, luck);
      r.sys.machines.Keys <= d.sys.machines.Keys + {pid} &&
      (pid in r.sys.machines && pid !in d.sys.machines ==>
       (verb.Throttle? || verb.Suspend?) && Accepted(d, verb, name, pid))
  {
    hide Act;
  }

  /** A step adopts a process exactly if it is such a command: what is discovered or reloaded is never held. */
  lemma AdoptsExactly(w: World, step: Step)
    requires Sound(w) && Unlisted(w) && Enabled(w, step) && w.adopted == {}
    ensures Taken(w, step).adopted == if Adopts(w, step) then {step.pid} else {}
  {
    hide Safe, AllLucky, LeavesGently, Polled, Reloaded, Commanded, RecoveredAll, Actuators.Configured, Accepted,
         IsProtected, AutoProtect.RightChoice, AutoProtect.OnePerPid, AutoProtect.Elevated, AutoProtect.Tidy, Guarded;
    var s := w.d.sys;
    match step
    case Outer(e, _) =>
    case Discover(pid) =>
    case Thresholds(config, luck) => ConfigureTouchesNothing(s, config, luck);
    case Poll(percent, luck) => PollSameLives(w.d, percent, luck);
    case Reload(critical, batch, config, protect, _, luck, _) =>
      ReloadSameLives(w.d, critical, batch, config, protect, luck);
    case Command(verb, pid, percent, luck) =>
      CommandAdds(w.d, verb, w.names(pid), pid, percent, luck);
      if Adopts(w, step) { CommandTakesHold(w.d, verb, w.names(pid), pid, true, percent, luck); }
    case Tick(_, _, _, _) =>
    case Exempt(_, _) =>
    case Shutdown(luck, _) => RecoverSameLives(s, luck);
  }

  /** Whatever happens from here on, as long as nothing more is adopted every managed process is as its machine says. */
  ghost predicate StaysKept(w: World) {
    forall ws, steps :: IsRun(ws, steps) && ws[0] == w && End(ws).adopted <= w.adopted ==> AllKept(End(ws).d.sys)
  }

  /** A process that was just suspended may be resumed: every thread it has is ours to resume. */
  lemma AdoptedIsQuiet(w: World, step: Step)
    requires Sound(w) && Enabled(w, step) && Adopts(w, step)
    ensures MayResume(Taken(w, step).d.sys, step.pid)
  {
    hide Act, Lucky, Quiet, AllCaught, InOrder, IsProtected, AutoProtect.Tidy, Adopted;
    var s, luck := w.d.sys, step.luck;
    var t := Added(s, w.names(step.pid), step.pid, true);
    AddIsSafe(s, w.p.throttled, w.adopted, w.names(step.pid), step.pid);
    var to := if step.verb.Throttle? then Throttled else Suspended;
    var a := ForceState(to, step.percent, true);
    OneActed(t, step.pid, a, luck);
    var m, p := t.machines[step.pid], s.procs[step.pid];
    var e := EntryOf(w.p.throttled, step.pid);
    var adopted := w.adopted + Adopted(s, t, w.p.throttled);
    ActKeepsOrder(m, e, step.pid in adopted, p, a, luck(step.pid));
    ActMoves(m, p, a, luck(step.pid));
    CaughtIsQuiet(Act(m, p, a, luck(step.pid)).1.threads);
  }

  lemma CaughtIsQuiet(threads: Threads)
    ensures AllCaught(threads) ==> Quiet(threads)
  {
  }

  /** An adopted process can be throttled by hand whatever its state is. */
  lemma AdoptedCanBeThrottled(v: World, pid: Pid, luck: Pid -> Luck)
    requires Sound(v) && pid in v.d.sys.machines && MayResume(v.d.sys, pid)
    requires v.names(pid) !in v.d.critical && AllLucky(v.d.sys, luck)
    ensures Enabled(v, Command(Throttle, pid, 0.0, luck))
    ensures var t := Taken(v, Command(Throttle, pid, 0.0, luck));
      pid in t.d.sys.machines && t.d.sys.machines[pid].control.state.Throttled? && t.p.throttled == v.p.throttled &&
      t.adopted == v.adopted && SameLives(v.d.sys.procs, t.d.sys.procs)
  {
    hide Act, Lucky, Quiet, InOrder, IsProtected, AutoProtect.Tidy;
    CommandSameLives(v.d, Throttle, v.names(pid), pid, 0.0, luck);
    var s := v.d.sys;
    CommandTakesHold(v.d, Throttle, v.names(pid), pid, true, 0.0, luck);
    AlreadyManaged(s, v.names(pid), pid, true);
    var t := Commanded(v.d, Throttle, v.names(pid), pid, true, 0.0, luck).sys;
    OneActed(s, pid, ForceState(Throttled, 0.0, true), luck);
    assert forall k :: k in s.machines && k != pid ==> t.machines[k] == s.machines[k];
    NothingAdopted(s, t, v.p.throttled, v.adopted);
  }

  /** When auto-protect gives back the priority of a throttled process, it is not on idle priority any more. */
  lemma GivingBackBreaks(w: World, pid: Pid, calls: AutoProtect.Answers)
    requires calls(pid).sets
    requires Sound(w) && pid in w.p.throttled && !Look(w.d.sys.procs, pid).exited
    requires pid in w.d.sys.machines && w.d.sys.machines[pid].control.state.Throttled?
    ensures var x := Exempt(pid, calls);
      Enabled(w, x) && !AllKept(Taken(w, x).d.sys) && Taken(w, x).adopted == w.adopted
  {
    hide ThreadsKept, NoneProtected, AutoProtect.Tidy;
    var x := Exempt(pid, calls);
    SameService(w);
    var e, s, t := w.p.throttled[pid], w.d.sys, Taken(w, x).d.sys;
    assert InOrder(MachineOf(s, pid), Some(e), pid in w.adopted, s.procs[pid]);
    assert t.machines == s.machines && t.procs[pid] == AutoProtect.GivenBack(s.procs[pid], e, calls(pid));
    assert !Kept(t.machines[pid], t.procs[pid]);
  }

  lemma TwoSteps(w: World, a: Step, b: Step)
    requires Enabled(w, a) && Enabled(Taken(w, a), b)
    ensures IsRun([w, Taken(w, a), Taken(Taken(w, a), b)], [a, b])
  {
    hide Enabled, Taken;
  }

  /** Throttled by hand and then exempted, an adopted process is throttled but not on idle priority. */
  lemma AdoptionBreaks(v: World, pid: Pid, luck: Pid -> Luck)
    requires Sound(v) && Unlisted(v) && pid in v.d.sys.machines && MayResume(v.d.sys, pid)
    requires pid in v.p.throttled && !Look(v.d.sys.procs, pid).exited && AllLucky(v.d.sys, luck)
    ensures !StaysKept(v)
  {
    hide Enabled, Sound, Taken, MayResume, AllLucky, AllKept;
    var calls: AutoProtect.Answers := (_: Pid) => AutoProtect.Calls(true, true);
    var c, x := Command(Throttle, pid, 0.0, luck), Exempt(pid, calls);
    HeldIsNotCritical(v, pid);
    AdoptedCanBeThrottled(v, pid, luck);
    StepIsSound(v, c);
    GivingBackBreaks(Taken(v, c), pid, calls);
    TwoSteps(v, c, x);
    assert End([v, Taken(v, c), Taken(Taken(v, c), x)]) == Taken(Taken(v, c), x);
  }

  lemma HeldIsNotCritical(v: World, pid: Pid)
    requires Sound(v) && Unlisted(v) && pid in v.p.throttled && !Look(v.d.sys.procs, pid).exited
    ensures v.names(pid) !in v.d.critical
  {
  }

  /**
   Adoption is what breaks conservation: a step keeps every managed process as its machine says, now and
   as long as nothing more is adopted, if and only if it is not a command that takes a running process
   auto-protect holds under management. After such a command auto-protect may give back the priority of
   a process that is throttled.
   */
  lemma AdoptionExactly(w: World, step: Step, luck: Pid -> Luck)
    requires Sound(w) && Unlisted(w) && w.adopted == {} && Enabled(w, step) && AllLucky(Taken(w, step).d.sys, luck)
    ensures StaysKept(Taken(w, step)) <==> !Adopts(w, step)
  {
    hide Enabled, Taken, AllLucky, Sound, Unlisted, AllKept;
    var v := Taken(w, step);
    StepIsSound(w, step);
    StepIsUnlisted(w, step);
    AdoptsExactly(w, step);
    if Adopts(w, step) {
      AdoptedIsHeld(w, step);
      AdoptedIsQuiet(w, step);
      AdoptionBreaks(v, step.pid, luck);
    } else {
      forall ws, steps | IsRun(ws, steps) && ws[0] == v && End(ws).adopted <= v.adopted
        ensures AllKept(End(ws).d.sys)
      {
        RunsStaySound(ws, steps);
        SoundIsKept(End(ws));
      }
    }
  }

  lemma AdoptedIsHeld(w: World, step: Step)
    requires Sound(w) && Enabled(w, step) && Adopts(w, step)
    ensures var v := Taken(w, step);
      step.pid in v.d.sys.machines && step.pid in v.p.throttled && !Look(v.d.sys.procs, step.pid).exited
  {
    hide Safe, Commanded, AutoProtect.Tidy, AllLucky, LeavesGently, Accepted;
    CommandTakesHold(w.d, step.verb, w.names(step.pid), step.pid, true, step.percent, step.luck);
    CommandSameLives(w.d, step.verb, w.names(step.pid), step.pid, step.percent, step.luck);
  }

  // -------------------------------------------------------------- shutdown

  /** A live process on a lower priority than it came with. */
  predicate Demoted(p: Proc) {
    !p.exited && Rank(p.priority) < Rank(p.original)
  }

  lemma ShutdownIsLoose(w: World, luck: Pid -> Luck, calls: AutoProtect.Answers)
    requires Sound(w) && Enabled(w, Shutdown(luck, calls))
    ensures var s := Taken(w, Shutdown(luck, calls)).d.sys;
      forall pid :: pid in s.procs ==> Loose(s.procs[pid])
  {
    hide ThreadsKept, OwnPriority, EntryFits, NoneProtected, AllLucky, LeavesGently, RecoveredAll, AutoProtect.Tidy;
    var step := Shutdown(luck, calls);
    StepIsSound(w, step);
    RecoverAllIsSafe(w.d.sys, w.p.throttled, w.adopted, luck);
    var v := Taken(w, step);
    assert v.p.throttled.Keys == {};
    forall pid | pid in v.d.sys.procs ensures Loose(v.d.sys.procs[pid]) {
      assert InOrder(MachineOf(v.d.sys, pid), EntryOf(v.p.throttled, pid), pid in v.adopted, v.d.sys.procs[pid]);
    }
  }

  /**
   After the shutdown of any run, whatever was adopted, no live process is left suspended by the service
   or lowered by auto-protect. One is left demoted only if it came above the normal priority, and then it
   is on the normal one.
   */
  lemma ShutdownLeavesNothing(ws: seq<World>, steps: seq<Step>)
    requires IsRun(ws, steps) && Initial(ws[0]) && steps != [] && steps[|steps| - 1].Shutdown?
    ensures var procs := End(ws).d.sys.procs;
      forall pid :: pid in procs ==>
        Loose(procs[pid]) &&
        (Demoted(procs[pid]) ==>
         procs[pid].priority == NormalPriority && Rank(procs[pid].original) > Rank(NormalPriority))
  {
    hide Initial, Sound, Enabled, Taken;
    var n := |steps| - 1;
    ReachableIsSound(ws[..n + 1], steps[..n]);
    ShutdownIsLoose(ws[n], steps[n].luck, steps[n].calls);
  }

  /** This run ends with a shutdown that leaves the process demoted. */
  ghost predicate LeavesDemoted(ws: seq<World>, steps: seq<Step>, pid: Pid, original: Priority) {
    IsRun(ws, steps) && Initial(ws[0]) && steps != [] && steps[|steps| - 1].Shutdown? &&
    var procs := End(ws).d.sys.procs;
    pid in procs && procs[pid].original == original && Demoted(procs[pid])
  }
}
