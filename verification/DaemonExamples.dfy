/**
 Concrete runs of the service: one that leaves a process demoted, which makes the condition for that
 exact, and one in which a command adopts a process.
 */
module DaemonExamples {
  import opened Bytes
  import opened OsControl
  import opened StateMachine
  import opened Actuators
  import opened Daemon
  import opened DaemonWorld
  import opened DaemonRuns
  import AutoPolicy
  import AutoProtect

  lemma RecoverSetsNormal(m: Machine, p: Proc, luck: Luck)
    requires !p.exited && !m.control.state.Normal? && luck.priority.Success?
    ensures Act(m, p, ForceRecover, luck).1.priority == NormalPriority &&
            Act(m, p, ForceRecover, luck).1.original == p.original && !Act(m, p, ForceRecover, luck).1.exited
  {
  }

  const SETS: AutoProtect.Answers := (_: Pid) => AutoProtect.Calls(true, true)
  const LONE_THREAD: Threads := map[0 := Thread(0, 0, false, false)]
  const ALL_GOOD: Luck := Luck([0], t => if t == 0 then Done else Gone, Success)
  const LUCKY: Pid -> Luck := (_: Pid) => ALL_GOOD

  /** One process with one thread, and auto-protect switched off. */
  function LoneWorld(original: Priority): World {
    var procs := map[7 := Proc(false, original, original, LONE_THREAD)];
    var settings := AutoPolicy.Settings(false, 85.0, 3, true, 97.0, 5, 60.0, 10, 5, 10.0);
    World(Service(System(1, Config(90.0, 3, 95.0, 5, 60.0, 5), {}, map[], procs), {}, {}, {}),
          AutoProtect.Protector(settings, AutoPolicy.CALM, map[], {}, procs), (_: Pid) => "b.exe", {})
  }

  lemma LoneIsLucky(p: Proc)
    requires p.threads == LONE_THREAD
    ensures Lucky(p, ALL_GOOD)
  {
    assert 0 in p.threads && forall t :: t in p.threads ==> t == 0;
    assert [0][0] == 0 && forall t :: t in [0] ==> t == 0;
  }

  function LoneThrottle(): Step {
    Command(Throttle, 7, 0.0, LUCKY)
  }

  lemma LoneIsThrottled(original: Priority)
    ensures Enabled(LoneWorld(original), LoneThrottle())
    ensures var held := Taken(LoneWorld(original), LoneThrottle());
      7 in held.d.sys.machines && held.d.sys.machines[7].control.state.Throttled? && held.d.sys.procs.Keys == {7} &&
      held.d.sys.procs[7] == Proc(false, IdlePriority, original, LONE_THREAD) && held.d.sys.machines.Keys == {7} &&
      held.p.throttled == map[]
  {
    var w := LoneWorld(original);
    var d := w.d;
    LoneIsLucky(d.sys.procs[7]);
    assert |"b.exe"| == 5;
    CommandTakesHold(d, Throttle, "b.exe", 7, true, 0.0, LUCKY);
    var m := Machine("b.exe", 7, true, Start(d.sys.config), []);
    OneActed(Added(d.sys, "b.exe", 7, true), 7, ForceState(Throttled, 0.0, true), LUCKY);
    assert Act(m, d.sys.procs[7], ForceState(Throttled, 0.0, true), ALL_GOOD).1 ==
      d.sys.procs[7].(priority := IdlePriority);
  }

  lemma LoneShutdown(held: World, original: Priority)
    requires held.d.sys.machines.Keys == {7} && held.d.sys.machines[7].control.state.Throttled?
    requires held.d.sys.procs.Keys == {7} && held.p.throttled == map[]
    requires held.d.sys.procs[7] == Proc(false, IdlePriority, original, LONE_THREAD)
    ensures var last := Shutdown(LUCKY, SETS);
      Enabled(held, last) && 7 in Taken(held, last).d.sys.procs &&
      var p := Taken(held, last).d.sys.procs[7]; p.original == original && !p.exited && p.priority == NormalPriority
  {
    hide Act;
    LoneIsLucky(held.d.sys.procs[7]);
    RecoverSetsNormal(held.d.sys.machines[7], held.d.sys.procs[7], ALL_GOOD);
  }

  /** One throttle by hand, then the shutdown: the process ends on the normal priority. */
  lemma ThrottleThenShutdown(original: Priority)
    requires Rank(original) > Rank(NormalPriority)
    ensures var w, last := LoneWorld(original), Shutdown(LUCKY, SETS);
      var v := Taken(w, LoneThrottle());
      LeavesDemoted([w, v, Taken(v, last)], [LoneThrottle(), last], 7, original)
  {
    hide Taken, Enabled;
    var w, last := LoneWorld(original), Shutdown(LUCKY, SETS);
    LoneIsThrottled(original);
    LoneShutdown(Taken(w, LoneThrottle()), original);
    TwoSteps(w, LoneThrottle(), last);
  }

  /** The service never leaves a process of this priority demoted exactly if the priority is at most the normal one. */
  lemma NeverDemotedExactly(original: Priority)
    ensures (forall ws, steps, pid :: !LeavesDemoted(ws, steps, pid, original)) <==>
            Rank(original) <= Rank(NormalPriority)
  {
    if Rank(original) <= Rank(NormalPriority) {
      hide Initial, IsRun;
      forall ws, steps, pid ensures !LeavesDemoted(ws, steps, pid, original) {
        if LeavesDemoted(ws, steps, pid, original) { ShutdownLeavesNothing(ws, steps); }
      }
    } else {
      hide LeavesDemoted, Taken;
      ThrottleThenShutdown(original);
    }
  }

  // ----------------------------------------------------- an adopting run

  /** One process with one thread, and auto-protect acts on the first high sample. */
  function BusyWorld(): World {
    var w := LoneWorld(NormalPriority);
    w.(p := w.p.(settings := w.p.settings.(enabled := true, throttleSamples := 1)))
  }

  const BUSY_ROW := AutoProtect.Row(7, "b.exe", 50.0, true, true)
  const BUSY: AutoPolicy.Candidate := AutoPolicy.Candidate(7, "b.exe", 50.0)

  function BusyTick(): Step {
    Tick(90.0, [BUSY_ROW], SETS, [BUSY])
  }

  lemma BusyIsChosen()
    ensures var w := BusyWorld();
      AutoProtect.RightChoice(w.p, 90.0, [BUSY_ROW], Excludes(w.d), SETS, [BUSY]) &&
      AutoProtect.BeforeChoice(w.p, 90.0, [BUSY_ROW], SETS) ==
      w.p.(level := AutoPolicy.Updated(w.p.level, 90.0, w.p.settings))
  {
    var w := BusyWorld();
    var q := AutoProtect.BeforeChoice(w.p, 90.0, [BUSY_ROW], SETS);
    assert q.throttled == map[] && q.exempt == {} && q.procs == w.p.procs;
    assert [BUSY_ROW][..0] == [];
    assert AutoProtect.Eligible(q, [BUSY_ROW], Excludes(w.d)) == [BUSY];
  }

  lemma BusyIsHeld()
    ensures Enabled(BusyWorld(), BusyTick())
    ensures var v := Taken(BusyWorld(), BusyTick());
      v.p.throttled.Keys == {7} && v.d == BusyWorld().d.(sys := BusyWorld().d.sys.(procs := v.p.procs)) &&
      v.p.procs.Keys == {7} && v.p.procs[7] == Proc(false, BelowNormal, NormalPriority, LONE_THREAD) &&
      v.names(7) == "b.exe" && v.adopted == {}
  {
    hide AutoProtect.BeforeChoice, AutoProtect.Eligible, AutoProtect.RightChoice;
    BusyIsChosen();
    var w := BusyWorld();
    SameService(w);
    var q := w.p.(level := AutoPolicy.Updated(w.p.level, 90.0, w.p.settings));
    assert [BUSY][..0] == [];
    assert AutoProtect.LoweredAll(q, [BUSY], BelowNormal, SETS) == AutoProtect.Lowered(q, 7, BelowNormal, SETS(7));
    assert AutoProtect.Lowered(q, 7, BelowNormal, SETS(7)).throttled.Keys == {7};
  }

  /** There is a run in which a command adopts a process, and with which it stops being as its machine says. */
  lemma AdoptionHappens()
    ensures var start, step := BusyWorld(), LoneThrottle();
      var w := Taken(start, BusyTick());
      IsRun([start, w], [BusyTick()]) && Initial(start) && Enabled(w, step) && Adopts(w, step) &&
      !StaysKept(Taken(w, step))
  {
    hide Enabled, Taken, StaysKept, Adopts;
    var start, step := BusyWorld(), LoneThrottle();
    BusyIsHeld();
    var w := Taken(start, BusyTick());
    ReachableIsSound([start, w], [BusyTick()]);
    HeldIsAdopted(w);
    AdoptionExactly(w, step, LUCKY);
  }

  lemma HeldIsAdopted(w: World)
    requires w.p.throttled.Keys == {7} && w.d == BusyWorld().d.(sys := BusyWorld().d.sys.(procs := w.p.procs))
    requires w.p.procs.Keys == {7} && w.p.procs[7] == Proc(false, BelowNormal, NormalPriority, LONE_THREAD)
    requires w.names(7) == "b.exe"
    ensures Enabled(w, LoneThrottle()) && Adopts(w, LoneThrottle()) && AllLucky(Taken(w, LoneThrottle()).d.sys, LUCKY)
  {
    LoneIsLucky(w.p.procs[7]);
    assert |"b.exe"| == 5;
    OneActed(Added(w.d.sys, "b.exe", 7, true), 7, ForceState(Throttled, 0.0, true), LUCKY);
    LoneIsLucky(Taken(w, LoneThrottle()).d.sys.procs[7]);
  }
}
