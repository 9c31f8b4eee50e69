/**
 The managed batch processes (ActuatorManager.cpp): the map of machines, the loops over it, and what
 the service owes each process. The table of processes belongs to the OS; the luck of a pid is what
 the OS answers to the calls on that process.
 */
module Actuators {
  import opened Bytes
  import opened OsControl
  import opened StateMachine

  datatype Action =
    | Update(percent: real)
    | ForceRecover
    | SetConfig(config: Config)
    | ForceState(to: State, percent: real, hold: bool)
    | ReleaseManualHold

  /** One call on one machine, and what it does to the process. */
  function Act(m: Machine, p: Proc, a: Action, luck: Luck): (Machine, Proc) {
    match a
    case Update(percent) => Updated(m, p, percent, luck)
    case ForceRecover => Recovered(m, p, luck)
    case SetConfig(config) => (m.(control := m.control.(config := config)), p)
    case ForceState(to, percent, hold) => Forced(m, p, to, percent, hold, luck)
    case ReleaseManualHold => (m.(control := m.control.(hold := false)), p)
  }

  // --------------------------------------------------- one managed process

  /** The priority it came with, or the normal one, which recovery gives. */
  predicate OwnPriority(p: Proc) {
    p.priority == p.original || p.priority == NormalPriority
  }

  /** While suspended exactly the threads of the snapshot are suspended by us, otherwise none. */
  predicate ThreadsKept(state: State, threads: Threads) {
    Balanced(threads) && if state.Suspended? then SnapshotCaught(threads) else Free(threads)
  }

  predicate PriorityKept(state: State, p: Proc) {
    match state
    case Normal => OwnPriority(p)
    case Throttled => p.priority == IdlePriority
    case Suspended => OwnPriority(p) || p.priority == IdlePriority
  }

  /** What the service owes a process: its threads and its priority are as the state of the machine says. */
  predicate Kept(m: Machine, p: Proc) {
    m.handle && (p.exited || (ThreadsKept(m.control.state, p.threads) && PriorityKept(m.control.state, p)))
  }

  /** Not held by the service: nothing suspended, and the priority it came with or the normal one. */
  predicate Loose(p: Proc) {
    p.exited || (ThreadsKept(Normal, p.threads) && OwnPriority(p))
  }

  /** A process that is not managed is treated as one in the normal state. */
  function StateOf(m: Option<Machine>): State {
    if m.Some? then m.value.control.state else Normal
  }

  /** An entry of auto-protect gives back an own priority, and has set one strictly below it. */
  predicate EntryFits(e: Entry, p: Proc) {
    Rank(e.current) < Rank(e.original) && (e.original == p.original || e.original == NormalPriority)
  }

  /**
   What the service owes a process that auto-protect may hold too. The threads are always as the machine
   says. So is the priority, or it is where the entry of auto-protect says if there is one and no
   machine. Of an `adopted` process, which came under management while auto-protect held it, less is
   known: only in the normal state and without an entry it is on an own priority.
   */
  predicate InOrder(m: Option<Machine>, e: Option<Entry>, adopted: bool, p: Proc) {
    (m.Some? ==> m.value.handle) &&
    (p.exited ||
     (ThreadsKept(StateOf(m), p.threads) && (e.Some? ==> EntryFits(e.value, p)) &&
      if adopted then e.None? && StateOf(m).Normal? ==> OwnPriority(p)
      else if e.Some? then m.None? && p.priority == e.value.current
      else PriorityKept(StateOf(m), p)))
  }

  /** The OS calls succeed. */
  ghost predicate Lucky(p: Proc, luck: Luck) {
    p.exited || (Works(p.threads, luck.snapshot, luck.outcome) && luck.priority.Success?)
  }

  /** If this call resumes the process, no thread that is not ours to resume is suspended by anyone else. */
  predicate Gentle(m: Machine, p: Proc, a: Action, luck: Luck) {
    !p.exited && m.control.state.Suspended? && !Act(m, p, a, luck).0.control.state.Suspended? ==> Quiet(p.threads)
  }

  lemma TransitionThreads(m: Machine, p: Proc, to: State, percent: real, luck: Luck)
    requires !p.exited && ThreadsKept(m.control.state, p.threads) && Lucky(p, luck) && to != m.control.state
    requires m.control.state.Suspended? ==> Quiet(p.threads)
    ensures var r := Transition(m, p, to, percent, luck);
      ThreadsKept(to, r.1.threads) && SameOthers(r.1.threads, p.threads) && !r.1.exited &&
      (to.Suspended? ==> AllCaught(r.1.threads)) && r.0.reports[|m.reports|].succeeded
    ensures Transition(m, p, to, percent, luck).1.priority ==
      match to case Normal => NormalPriority case Throttled => IdlePriority case Suspended => p.priority
  {
    WorkingCallsSucceed(p.threads, luck.snapshot, luck.outcome);
    if to.Suspended? {
      SuspendCatches(p.threads, luck.snapshot, luck.outcome);
    } else if m.control.state.Suspended? {
      ResumeExactly(p.threads, luck.snapshot, luck.outcome);
    }
  }

  lemma TransitionKeeps(m: Machine, e: Option<Entry>, adopted: bool, p: Proc, to: State, percent: real, luck: Luck)
    requires InOrder(Some(m), e, adopted, p) && Lucky(p, luck) && to != m.control.state
    requires !p.exited && m.control.state.Suspended? ==> Quiet(p.threads)
    ensures var r := Transition(m, p, to, percent, luck);
      InOrder(Some(r.0), e, adopted, r.1) && r.1.exited == p.exited && r.1.original == p.original &&
      r.0.control.state == to && r.0.pid == m.pid && r.0.name == m.name &&
      (!p.exited && to.Suspended? ==> AllCaught(r.1.threads))
  {
    if !p.exited { TransitionThreads(m, p, to, percent, luck); }
  }

  /**
   When the OS calls succeed, every call on a machine keeps what is owed to its process, whatever
   auto-protect holds; one that suspends it catches every thread of the snapshot.
   */
  lemma ActKeepsOrder(m: Machine, e: Option<Entry>, adopted: bool, p: Proc, a: Action, luck: Luck)
    requires InOrder(Some(m), e, adopted, p) && Lucky(p, luck) && Gentle(m, p, a, luck)
    ensures var r := Act(m, p, a, luck);
      InOrder(Some(r.0), e, adopted, r.1) && r.1.exited == p.exited && r.1.original == p.original &&
      r.0.pid == m.pid && r.0.name == m.name
    ensures var r := Act(m, p, a, luck);
      !p.exited && !m.control.state.Suspended? && r.0.control.state.Suspended? ==> AllCaught(r.1.threads)
    ensures a.ForceRecover? ==> Act(m, p, a, luck).0.control.state.Normal?
  {
    ActMoves(m, p, a, luck);
    hide Transition, Count, ThreadsKept, PriorityKept;
    match a
    case Update(percent) =>
      var counted := m.(control := m.control.(counters := Count(m.control.counters, m.control.config, percent)));
      var to := Decision(m.control.config, m.control.state, counted.control.counters);
      if !m.control.hold && to != m.control.state { TransitionKeeps(counted, e, adopted, p, to, percent, luck); }
    case ForceRecover =>
      if !m.control.state.Normal? {
        TransitionKeeps(m.(control := m.control.(hold := false)), e, adopted, p, Normal, 0.0, luck);
      }
    case SetConfig(_) =>
    case ForceState(to, percent, hold) =>
      if m.control.state != to {
        TransitionKeeps(m.(control := m.control.(hold := hold)), e, adopted, p, to, percent, luck);
      }
    case ReleaseManualHold =>
  }

  /** Where a call takes a machine; a call that leaves it there does nothing to the process. */
  lemma ActMoves(m: Machine, p: Proc, a: Action, luck: Luck)
    ensures var r := Act(m, p, a, luck);
      r.0.control.state ==
        (match a
         case Update(percent) =>
           if m.control.hold then m.control.state
           else Decision(m.control.config, m.control.state, Count(m.control.counters, m.control.config, percent))
         case ForceRecover => Normal
         case SetConfig(_) => m.control.state
         case ForceState(to, _, _) => to
         case ReleaseManualHold => m.control.state) &&
      (r.0.control.state == m.control.state ==> r.1 == p) && r.0.handle == m.handle
  {
    hide Actuate, Count;
  }

  /** The same for a process that auto-protect does not hold. */
  lemma ActKeeps(m: Machine, p: Proc, a: Action, luck: Luck)
    requires Kept(m, p) && Lucky(p, luck) && Gentle(m, p, a, luck)
    ensures var r := Act(m, p, a, luck);
      Kept(r.0, r.1) && r.1.exited == p.exited && r.1.original == p.original &&
      (!p.exited && !m.control.state.Suspended? && r.0.control.state.Suspended? ==> AllCaught(r.1.threads))
  {
    hide Act, ThreadsKept, PriorityKept;
    ActKeepsOrder(m, None, false, p, a, luck);
  }

  /** What holds of every run of a machine holds of the machines here: each call is one event of such a run. */
  lemma ActIsEvent(m: Machine, p: Proc, a: Action, luck: Luck, run: Run)
    requires run.control == m.control
    ensures var e :=
        match a
        case Update(percent) => Measure(percent)
        case ForceRecover => Override(Normal, false)
        case SetConfig(config) => Configure(config)
        case ForceState(to, _, hold) => Override(to, hold)
        case ReleaseManualHold => Release;
      Apply(run, e).control == Act(m, p, a, luck).0.control
  {
    match a
    case Update(percent) => ActingFollowsControl(m, p, percent, Normal, false, luck);
    case ForceRecover => ActingFollowsControl(m, p, 0.0, Normal, false, luck);
    case ForceState(to, percent, hold) => ActingFollowsControl(m, p, percent, to, hold, luck);
    case _ =>
  }

  /**
   Recovery gives a throttled process the normal priority, not the one it came with: the process is
   back as it was exactly if it came with normal priority.
   */
  lemma RestoresOriginalExactly(m: Machine, p: Proc, luck: Luck)
    requires Lucky(p, luck) && !p.exited && !m.control.state.Normal?
    ensures Recovered(m, p, luck).1.priority == p.original <==> p.original == NormalPriority
  {
  }

  // --------------------------------------------------------- all of them

  /** `self` is the service's own pid; names are compared without regard to case, so they are kept folded. */
  datatype System = System(self: Pid, config: Config, protectedNames: set<string>, machines: map<Pid, Machine>,
                           procs: Procs)

  const ALWAYS_PROTECTED: set<string> := {
    "[system process]", "system", "registry", "smss.exe", "csrss.exe", "wininit.exe", "winlogon.exe", "services.exe",
    "lsass.exe", "svchost.exe", "dwm.exe", "fontdrvhost.exe", "lsaiso.exe", "memory compression", "secure system"
  }

  predicate IsProtected(s: System, name: string, pid: Pid) {
    pid == s.self || name in ALWAYS_PROTECTED || name in s.protectedNames
  }

  /** The same call on each of the machines `pids`; no machine touches another's process. */
  function Acted(s: System, pids: set<Pid>, a: Action, luck: Pid -> Luck): System {
    s.(machines := map pid | pid in s.machines ::
                     if pid in pids then Act(s.machines[pid], Look(s.procs, pid), a, luck(pid)).0 else s.machines[pid],
       procs := map pid | pid in s.procs ::
                  if pid in pids && pid in s.machines then Act(s.machines[pid], s.procs[pid], a, luck(pid)).1
                    else s.procs[pid])
  }

  function Dropped(s: System, pids: set<Pid>): System {
    s.(machines := s.machines - pids)
  }

  /** A loop that calls some of the machines and drops some. */
  function Swept(s: System, acting: set<Pid>, dropping: set<Pid>, a: Action, luck: Pid -> Luck): (r: System)
    ensures r.machines.Keys == s.machines.Keys - dropping && r.self == s.self && r.protectedNames == s.protectedNames
  {
    Dropped(Acted(s, acting, a, luck), dropping)
  }

  function Added(s: System, name: string, pid: Pid, handle: bool): System {
    if IsProtected(s, name, pid) || pid in s.machines then s
    else s.(machines := s.machines[pid := Machine(name, pid, handle, Start(s.config), [])])
  }

  function Exited(s: System): (e: set<Pid>)
    ensures e <= s.machines.Keys
  {
    set pid | pid in s.machines && HasExited(s.machines[pid], Look(s.procs, pid))
  }

  function NowProtected(s: System): (e: set<Pid>)
    ensures e <= s.machines.Keys
  {
    set pid | pid in s.machines && IsProtected(s, s.machines[pid].name, pid)
  }

  function UpdatedAll(s: System, percent: real, luck: Pid -> Luck): System {
    Swept(s, s.machines.Keys - Exited(s), Exited(s), Update(percent), luck)
  }

  function Protecting(s: System, names: set<string>, luck: Pid -> Luck): System {
    var t := s.(protectedNames := names);
    Swept(t, NowProtected(t), NowProtected(t), ForceRecover, luck)
  }

  function RecoveredAll(s: System, luck: Pid -> Luck): System {
    Swept(s, s.machines.Keys, {}, ForceRecover, luck)
  }

  function Configured(s: System, config: Config, luck: Pid -> Luck): System {
    Swept(s.(config := config), s.machines.Keys, {}, SetConfig(config), luck)
  }

  /** Some of the machines `pids` is in another state in t than it was in s. */
  predicate AnyMoved(s: System, t: System, pids: set<Pid>) {
    exists pid :: pid in pids && pid in s.machines && pid in t.machines &&
      t.machines[pid].control.state != s.machines[pid].control.state
  }

  /** A process comes under management unless it is protected; it starts normal, with the thresholds in effect. */
  lemma AddedExactly(s: System, name: string, pid: Pid, handle: bool, k: Pid)
    ensures var r := Added(s, name, pid, handle);
      var starts := k == pid && k !in s.machines &&
        k != s.self && name !in ALWAYS_PROTECTED && name !in s.protectedNames;
      r == s.(machines := r.machines) && (k in r.machines <==> k in s.machines || starts) &&
      (k in r.machines ==>
        r.machines[k] == if starts
          then Machine(name, k, handle, Control(s.config, Normal, false, Counters(0, 0, 0)), []) else s.machines[k])
  {
  }

  // ------------------------------------------------- the code of the manager

  lemma SweepNone(s: System, a: Action, luck: Pid -> Luck)
    ensures Swept(s, {}, {}, a, luck) == s
  {
    hide Act;
    var t := Swept(s, {}, {}, a, luck);
    assert t.machines == s.machines && t.procs == s.procs;
  }

  lemma SweptAt(s: System, acting: set<Pid>, dropping: set<Pid>, pid: Pid, a: Action, luck: Pid -> Luck)
    requires pid in s.machines && pid !in acting && pid !in dropping
    ensures var t := Swept(s, acting, dropping, a, luck);
      pid in t.machines && t.machines[pid] == s.machines[pid] && Look(t.procs, pid) == Look(s.procs, pid)
  {
    hide Act;
  }

  /** One machine more has been called; no machine touches another's process. */
  lemma SweepAct(s: System, acting: set<Pid>, dropping: set<Pid>, pid: Pid, a: Action, luck: Pid -> Luck)
    requires pid in s.machines && pid !in acting && pid !in dropping
    ensures Acted(Swept(s, acting, dropping, a, luck), {pid}, a, luck) == Swept(s, acting + {pid}, dropping, a, luck)
  {
    hide Act;
    var t := Swept(s, acting, dropping, a, luck);
    SweptAt(s, acting, dropping, pid, a, luck);
    var u, v := Acted(t, {pid}, a, luck), Swept(s, acting + {pid}, dropping, a, luck);
    assert u.machines == v.machines;
    assert u.procs == v.procs;
  }

  lemma SweepDrop(s: System, acting: set<Pid>, dropping: set<Pid>, pid: Pid, a: Action, luck: Pid -> Luck)
    ensures Dropped(Swept(s, acting, dropping, a, luck), {pid}) == Swept(s, acting, dropping + {pid}, a, luck)
  {
    hide Acted;
    var t := Acted(s, acting, a, luck);
    assert (t.machines - dropping) - {pid} == t.machines - (dropping + {pid});
  }

  lemma OneActed(s: System, pid: Pid, a: Action, luck: Pid -> Luck)
    requires pid in s.machines
    ensures var r := Act(s.machines[pid], Look(s.procs, pid), a, luck(pid));
      Acted(s, {pid}, a, luck) == s.(machines := s.machines[pid := r.0], procs := Put(s.procs, pid, r.1))
  {
    hide Act;
    var r := Act(s.machines[pid], Look(s.procs, pid), a, luck(pid));
    var t := Acted(s, {pid}, a, luck);
    assert t.machines == s.machines[pid := r.0];
    assert t.procs == Put(s.procs, pid, r.1);
  }

  lemma NothingMoved(s: System, t: System)
    ensures !AnyMoved(s, t, {})
  {
  }

  lemma OnlyPresentMove(s: System, t: System, acting: set<Pid>, dropping: set<Pid>)
    requires s.machines.Keys == acting + dropping && t.machines.Keys !! dropping
    ensures AnyMoved(s, t, s.machines.Keys) <==> AnyMoved(s, t, acting)
  {
  }

  class ActuatorManager {
    const os: Os
    const self: Pid
    var config: Config
    var protectedNames: set<string>
    var machines: map<Pid, ProcessStateMachine>

    predicate Valid()
      reads this
    {
      forall pid :: pid in machines ==> machines[pid].pid == pid && machines[pid].os == os
    }

    function Abs(): (s: System)
      reads this, os, machines.Values
      ensures s.machines.Keys == machines.Keys
    {
      System(self, config, protectedNames, map pid | pid in machines :: machines[pid].Abs(), os.procs)
    }

    constructor (config: Config, self: Pid, os: Os)
      ensures Valid() && this.os == os && Abs() == System(self, config, {}, map[], os.procs)
    {
      this.config, this.self, this.os := config, self, os;
      protectedNames, machines := {}, map[];
    }

    /** `handle` says whether the process can be opened. */
    method AddBatchProcess(name: string, pid: Pid, handle: bool) returns (managed: bool)
      requires Valid()
      modifies this
      ensures Valid() && Abs() == Added(old(Abs()), name, pid, handle)
      ensures managed == !IsProtected(old(Abs()), name, pid) &&
        (if managed then pid in machines else Abs() == old(Abs()))
      ensures fresh(machines.Values - old(machines.Values))
    {
      if Guarded(name, pid) { return false; }
      if pid in machines { return true; }
      var m := new ProcessStateMachine(name, pid, config, handle, os);
      machines := machines[pid := m];
      managed := true;
    }

    /** One of the calls the manager and the daemon make on a machine. */
    method Tell(pid: Pid, a: Action, luck: Pid -> Luck) returns (changed: bool)
      requires Valid() && pid in machines
      modifies machines[pid], os
      ensures Abs() == Acted(old(Abs()), {pid}, a, luck)
      ensures changed == (machines[pid].state != old(machines[pid].state))
    {
      hide Updated, Forced, Recovered;
      var m := machines[pid];
      ghost var before, p, from := m.Abs(), m.Process(), m.state;
      PutLook(os.procs, pid);
      changed := CallMachine(m, a, luck(pid));
      ghost var r := Act(before, p, a, luck(pid));
      OneActed(old(Abs()), pid, a, luck);
      assert Abs().machines == old(Abs()).machines[pid := r.0];
    }

    method CallMachine(m: ProcessStateMachine, a: Action, luck: Luck) returns (changed: bool)
      modifies m, m.os
      ensures var r := Act(old(m.Abs()), old(m.Process()), a, luck);
        m.Abs() == r.0 && m.os.procs == Put(old(m.os.procs), m.pid, r.1) && changed == (m.state != old(m.state))
    {
      hide Updated, Forced, Recovered;
      var from := m.state;
      PutLook(m.os.procs, m.pid);
      match a {
        case Update(percent) => var _ := m.Update(percent, luck);
        case ForceRecover => m.ForceRecoverForShutdown(luck);
        case SetConfig(config) => m.SetConfig(config);
        case ForceState(to, percent, hold) => m.ForceState(to, percent, hold, luck);
        case ReleaseManualHold => m.ReleaseManualHold();
      }
      changed := m.state != from;
    }

    method RemoveBatchProcess(pid: Pid)
      requires Valid()
      modifies this
      ensures Valid() && Abs() == Dropped(old(Abs()), {pid}) && machines.Values <= old(machines.Values)
    {
      machines := machines - {pid};
    }

    method SetProtectedProcessNames(names: set<string>, luck: Pid -> Luck)
      requires Valid()
      modifies this, os, machines.Values
      ensures Valid() && Abs() == Protecting(old(Abs()), names, luck)
      ensures machines.Values <= old(machines.Values)
    {
      hide Act, Acted, Swept, NowProtected, Dropped, IsProtected;
      protectedNames := names;
      ghost var s, gone := Abs(), {};
      assert s == old(Abs()).(protectedNames := names);
      var todo := machines.Keys;
      SweepNone(s, ForceRecover, luck);
      while todo != {}
        invariant Valid() && Abs() == Swept(s, gone, gone, ForceRecover, luck)
        invariant todo !! gone && gone <= NowProtected(s) <= gone + todo && todo <= s.machines.Keys
        invariant machines.Values <= old(machines.Values)
      {
        var pid :| pid in todo;
        SweptAt(s, gone, gone, pid, ForceRecover, luck);
        ProtectedAlike(s, Abs(), pid);
        SweepAct(s, gone, gone, pid, ForceRecover, luck);
        SweepDrop(s, gone + {pid}, gone, pid, ForceRecover, luck);
        var erased := EraseIfProtected(pid, luck);
        if erased { gone := gone + {pid}; }
        todo := todo - {pid};
      }
      assert gone == NowProtected(s);
    }

    method EraseIfProtected(pid: Pid, luck: Pid -> Luck) returns (erased: bool)
      requires Valid() && pid in machines
      modifies this, os, machines[pid]
      ensures Valid() && machines.Values <= old(machines.Values)
      ensures erased == IsProtected(old(Abs()), old(Abs()).machines[pid].name, pid)
      ensures Abs() == if erased then Dropped(Acted(old(Abs()), {pid}, ForceRecover, luck), {pid}) else old(Abs())
    {
      hide Act, Acted;
      erased := Guarded(machines[pid].name, pid);
      if erased {
        var _ := Tell(pid, ForceRecover, luck);
        RemoveBatchProcess(pid);
      }
    }

    predicate Guarded(name: string, pid: Pid)
      reads this
    {
      pid == self || name in ALWAYS_PROTECTED || name in protectedNames
    }

    method ForceRecoverAllForShutdown(luck: Pid -> Luck)
      requires Valid()
      modifies os, machines.Values
      ensures Abs() == RecoveredAll(old(Abs()), luck)
    {
      TellAll(ForceRecover, luck);
    }

    method SetConfigAll(config: Config, luck: Pid -> Luck)
      requires Valid()
      modifies this`config, os, machines.Values
      ensures Valid() && Abs() == Configured(old(Abs()), config, luck)
    {
      this.config := config;
      assert Abs() == old(Abs()).(config := config);
      TellAll(SetConfig(config), luck);
    }

    method TellAll(a: Action, luck: Pid -> Luck)
      requires Valid()
      modifies os, machines.Values
      ensures Abs() == Swept(old(Abs()), old(Abs()).machines.Keys, {}, a, luck)
    {
      hide Act, Acted, Swept, Parted;
      ghost var s, done := Abs(), {};
      var todo := machines.Keys;
      SweepNone(s, a, luck);
      PartedStart(s);
      while todo != {}
        modifies os, machines.Values
        invariant Abs() == Swept(s, done, {}, a, luck)
        invariant Parted(s, todo, done)
      {
        var pid :| pid in todo;
        PartedStep(s, todo, done, pid);
        SweepAct(s, done, {}, pid, a, luck);
        var _ := Tell(pid, a, luck);
        done := done + {pid};
        todo := todo - {pid};
      }
      PartedEnd(s, done);
    }

    method UpdateAll(percent: real, luck: Pid -> Luck) returns (changed: bool)
      requires Valid()
      modifies this, os, machines.Values
      ensures Valid() && Abs() == UpdatedAll(old(Abs()), percent, luck)
      ensures changed == AnyMoved(old(Abs()), Abs(), old(machines).Keys)
      ensures machines.Values <= old(machines.Values)
    {
      hide Act, Acted, Swept, AnyMoved, Exited, Dropped, Sorted;
      ghost var s, acting, dropping := Abs(), {}, {};
      var a, todo := Update(percent), machines.Keys;
      changed := false;
      SweepNone(s, a, luck);
      NothingMoved(s, s);
      SortedStart(s);
      while todo != {}
        invariant Valid() && Abs() == Swept(s, acting, dropping, a, luck)
        invariant Sorted(s, todo, acting, dropping)
        invariant machines.Values <= old(machines.Values)
        invariant changed == AnyMoved(s, Abs(), acting)
      {
        var pid :| pid in todo;
        SortedStep(s, todo, acting, dropping, pid);
        SweepStep(s, acting, dropping, pid, percent, luck);
        var exited, moved := UpdateOrErase(pid, percent, luck);
        todo := todo - {pid};
        changed := moved || changed;
        if exited { dropping := dropping + {pid}; } else { acting := acting + {pid}; }
      }
      SortedEnd(s, acting, dropping);
      OnlyPresentMove(s, Abs(), acting, dropping);
    }

    method UpdateOrErase(pid: Pid, percent: real, luck: Pid -> Luck) returns (exited: bool, moved: bool)
      requires Valid() && pid in machines
      modifies this, os, machines[pid]
      ensures Valid() && exited == (pid in Exited(old(Abs())))
      ensures machines.Values <= old(machines.Values)
      ensures Abs() == if exited then Dropped(old(Abs()), {pid}) else Acted(old(Abs()), {pid}, Update(percent), luck)
      ensures !exited ==> pid in Abs().machines
      ensures moved == (!exited && Abs().machines[pid].control.state != old(Abs()).machines[pid].control.state)
    {
      hide Act, Acted;
      moved := false;
      exited := machines[pid].HasExitedNow();
      if exited {
        machines := machines - {pid};
      } else {
        moved := Tell(pid, Update(percent), luck);
      }
    }
  }

  /** Of a loop that drops exited machines and calls the others: what is left to do, was called, and was dropped. */
  predicate Sorted(s: System, todo: set<Pid>, acting: set<Pid>, dropping: set<Pid>) {
    todo + acting + dropping == s.machines.Keys && todo !! acting && todo !! dropping &&
    acting !! Exited(s) && dropping <= Exited(s)
  }

  /** Of a loop that calls every machine: what is left to do, and was called. */
  predicate Parted(s: System, todo: set<Pid>, done: set<Pid>) {
    todo !! done && done + todo == s.machines.Keys
  }

  lemma PartedStart(s: System)
    ensures Parted(s, s.machines.Keys, {})
  {
  }

  lemma PartedStep(s: System, todo: set<Pid>, done: set<Pid>, pid: Pid)
    requires Parted(s, todo, done) && pid in todo
    ensures pid in s.machines && pid !in done && Parted(s, todo - {pid}, done + {pid})
  {
  }

  lemma PartedEnd(s: System, done: set<Pid>)
    requires Parted(s, {}, done)
    ensures done == s.machines.Keys
  {
  }

  lemma ProtectedAlike(s: System, t: System, pid: Pid)
    requires s.self == t.self && s.protectedNames == t.protectedNames
    requires pid in s.machines && pid in t.machines && s.machines[pid] == t.machines[pid]
    ensures pid in NowProtected(s) <==> IsProtected(t, t.machines[pid].name, pid)
  {
  }

  lemma SortedStart(s: System)
    ensures Sorted(s, s.machines.Keys, {}, {})
  {
  }

  lemma SortedEnd(s: System, acting: set<Pid>, dropping: set<Pid>)
    requires Sorted(s, {}, acting, dropping)
    ensures acting == s.machines.Keys - Exited(s) && dropping == Exited(s)
  {
    hide Exited;
  }

  lemma SortedStep(s: System, todo: set<Pid>, acting: set<Pid>, dropping: set<Pid>, pid: Pid)
    requires Sorted(s, todo, acting, dropping) && pid in todo
    ensures pid in s.machines && pid !in acting && pid !in dropping
    ensures if pid in Exited(s) then Sorted(s, todo - {pid}, acting, dropping + {pid})
            else Sorted(s, todo - {pid}, acting + {pid}, dropping)
  {
    hide Exited;
  }

  lemma SweepStep(s: System, acting: set<Pid>, dropping: set<Pid>, pid: Pid, percent: real, luck: Pid -> Luck)
    requires pid in s.machines && pid !in acting && pid !in dropping
    ensures var a := Update(percent);
      var t := Swept(s, acting, dropping, a, luck);
      (pid in Exited(t) <==> pid in Exited(s)) && pid in t.machines && t.machines[pid] == s.machines[pid] &&
      Dropped(t, {pid}) == Swept(s, acting, dropping + {pid}, a, luck) &&
      Acted(t, {pid}, a, luck) == Swept(s, acting + {pid}, dropping, a, luck) &&
      pid in Acted(t, {pid}, a, luck).machines &&
      (AnyMoved(s, Dropped(t, {pid}), acting) <==> AnyMoved(s, t, acting)) &&
      (AnyMoved(s, Acted(t, {pid}, a, luck), acting + {pid}) <==>
       AnyMoved(s, t, acting) || Acted(t, {pid}, a, luck).machines[pid].control.state != s.machines[pid].control.state)
  {
    var a := Update(percent);
    var t := Swept(s, acting, dropping, a, luck);
    SweptAt(s, acting, dropping, pid, a, luck);
    SweepAct(s, acting, dropping, pid, a, luck);
    SweepDrop(s, acting, dropping, pid, a, luck);
    OneActed(t, pid, a, luck);
    hide Act, Acted, Exited;
  }
}
