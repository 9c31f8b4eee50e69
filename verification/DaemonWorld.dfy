/**
 The whole service (Daemon.cpp), one step at a time: the managed processes and auto-protect over one
 table of processes. A step is one poll of the machines, one tick of auto-protect, one reload, one
 command for one process, or something that happens outside. OS calls succeed, except that auto-protect
 may fail to lower a process; no other program changes priorities.
 */
module DaemonWorld {
  import opened Bytes
  import opened OsControl
  import opened StateMachine
  import opened Actuators
  import opened Daemon
  import opened AutoPolicy
  import opened AutoProtect

  /** `adopted` are the processes that came under management while auto-protect held them. */
  datatype World = World(d: Service, p: Protector, names: Pid -> string, adopted: set<Pid>)

  datatype Step =
    | Outer(e: Outside, name: string)
    | Discover(pid: Pid)
    | Thresholds(config: Config, luck: Pid -> Luck)
    | Poll(percent: real, luck: Pid -> Luck)
    | Reload(critical: set<string>, batch: set<string>, config: Config, protect: set<string>,
             settings: Settings, luck: Pid -> Luck, calls: Answers)
    | Command(verb: Verb, pid: Pid, percent: real, luck: Pid -> Luck)
    | Tick(cpu: real, rows: seq<Row>, calls: Answers, chosen: seq<Candidate>)
    | Exempt(pid: Pid, calls: Answers)
    | Shutdown(luck: Pid -> Luck, calls: Answers)

  /** What the step does to the managed processes. */
  function Served(w: World, step: Step): Service {
    match step
    case Outer(e, _) => w.d.(sys := Happened(w.d.sys, e))
    case Discover(pid) => w.d.(sys := Added(w.d.sys, w.names(pid), pid, true))
    case Thresholds(config, luck) => w.d.(sys := Actuators.Configured(w.d.sys, config, luck))
    case Poll(percent, luck) => Polled(w.d, percent, luck)
    case Reload(critical, batch, config, protect, _, luck, _) => Reloaded(w.d, critical, batch, config, protect, luck)
    case Command(verb, pid, percent, luck) => Commanded(w.d, verb, w.names(pid), pid, true, percent, luck)
    case Tick(_, _, _, _) => w.d
    case Exempt(_, _) => w.d
    case Shutdown(luck, _) => w.d.(sys := RecoveredAll(w.d.sys, luck))
  }

  /** Running processes that auto-protect holds although their names are configured. */
  function Misplaced(p: Protector, names: Pid -> string, configured: set<string>): (pids: set<Pid>)
    ensures pids <= p.throttled.Keys
  {
    set pid | pid in p.throttled && !Look(p.procs, pid).exited && names(pid) in configured
  }

  /** What the step does to auto-protect, after the managed processes. */
  function Guarded(p: Protector, names: Pid -> string, step: Step): Protector {
    match step
    case Tick(cpu, rows, calls, chosen) => Ticked(p, cpu, rows, calls, chosen)
    case Exempt(pid, calls) => Exempted(p, pid, calls)
    case Reload(critical, batch, _, protect, settings, _, calls) =>
      var q := AutoProtect.Configured(p, settings, calls);
      Excused(q, Misplaced(q, names, critical + batch + protect), calls)
    case Shutdown(_, calls) => Restored(p, p.throttled.Keys, calls)
    case _ => p
  }

  function WithService(w: World, d: Service): World {
    w.(d := d, p := w.p.(procs := d.sys.procs), adopted := w.adopted + Adopted(w.d.sys, d.sys, w.p.throttled))
  }

  function WithGuard(w: World, p: Protector): World {
    w.(d := w.d.(sys := w.d.sys.(procs := p.procs)), p := p)
  }

  function Renamed(names: Pid -> string, pid: Pid, name: string): Pid -> string {
    (k: Pid) => if k == pid then name else names(k)
  }

  function Taken(w: World, step: Step): World {
    match step
    case Outer(e, name) =>
      var v := WithService(w, Served(w, step));
      if e.Created? then v.(names := Renamed(w.names, e.pid, name), adopted := v.adopted - {e.pid}) else v
    case _ =>
      var v := WithService(w, Served(w, step));
      WithGuard(v, Guarded(v.p, v.names, step))
  }

  /** Auto-protect leaves alone what is configured and what is managed. */
  function Excludes(d: Service): (string, Pid) -> bool {
    (name, pid) => name in d.critical || name in d.batch || name in d.sys.protectedNames || pid in d.sys.machines
  }

  /** The calls on managed processes succeed, and what is resumed may be. */
  ghost predicate Smooth(w: World, step: Step, luck: Pid -> Luck) {
    AllLucky(w.d.sys, luck) && LeavesGently(w.d.sys, Served(w, step).sys)
  }

  /** Auto-protect can give these processes their priority back. */
  predicate CanRestore(p: Protector, pids: set<Pid>, calls: Answers) {
    forall pid :: pid in pids && pid in p.throttled ==> calls(pid).sets
  }

  /** The processes that a reload with these settings and configured names may give back. */
  function GivenUp(p: Protector, names: Pid -> string, settings: Settings,
                   configured: set<string>): set<Pid>
  {
    set pid | pid in p.throttled && (!settings.enabled || names(pid) in configured)
  }

  /** Auto-protect can do the step: what it gives back it can, and it chooses as it does. */
  ghost predicate CanGuard(w: World, step: Step) {
    match step
    case Tick(cpu, rows, calls, chosen) =>
      OnePerPid(rows) && RightChoice(w.p, cpu, rows, Excludes(w.d), calls, chosen) &&
      (!Elevated(w.p, cpu) ==> Restores(w.p, calls))
    case Exempt(pid, calls) => CanRestore(w.p, {pid}, calls)
    case Reload(critical, batch, _, protect, settings, _, calls) =>
      CanRestore(w.p, GivenUp(w.p, w.names, settings, critical + batch + protect), calls)
    case Shutdown(_, calls) => Restores(w.p, calls)
    case _ => true
  }

  ghost predicate Enabled(w: World, step: Step) {
    CanGuard(w, step) &&
    match step
    case Outer(e, _) => Possible(w.d.sys, e) && (e.Created? ==> e.pid !in w.p.throttled)
    case Discover(pid) => pid in w.d.sys.procs && w.names(pid) in w.d.batch
    case Thresholds(_, luck) => Smooth(w, step, luck)
    case Poll(_, luck) => Smooth(w, step, luck)
    case Reload(_, _, _, _, _, luck, _) => Smooth(w, step, luck)
    case Command(_, pid, _, luck) => Smooth(w, step, luck) && pid in w.d.sys.procs
    case Tick(_, rows, _, _) => forall r :: r in rows ==> r.name == w.names(r.pid)
    case Exempt(_, _) => true
    case Shutdown(luck, _) => Smooth(w, step, luck)
  }

  // ------------------------------------------------------------ invariant

  /** Both see the same processes, everything is in order, and auto-protect keeps its own rules. */
  ghost predicate Sound(w: World) {
    w.p.procs == w.d.sys.procs && Safe(w.d, w.p.throttled, w.adopted) && Tidy(w.p)
  }

  /** The name of the process is not configured. */
  predicate IsUnlisted(w: World, pid: Pid) {
    w.names(pid) !in w.d.critical && w.names(pid) !in w.d.batch && w.names(pid) !in w.d.sys.protectedNames
  }

  /** Auto-protect holds no running process whose name is configured. */
  predicate Unlisted(w: World) {
    forall pid :: pid in w.p.throttled && !Look(w.p.procs, pid).exited ==> IsUnlisted(w, pid)
  }

  lemma OwnProcs(s: System)
    ensures s.(procs := s.procs) == s
  {
  }

  lemma RestoreInOrder(m: Option<Machine>, e: Entry, adopted: bool, q: Proc, c: Calls)
    requires InOrder(m, Some(e), adopted, q) && c.sets
    ensures InOrder(m, None, adopted, GivenBack(q, e, c))
  {
  }

  /** Giving back priorities keeps everything in order: what is given back is an own priority. */
  lemma RestoreKeepsOrder(s: System, p: Protector, adopted: set<Pid>, pids: set<Pid>, calls: Answers)
    requires Owed(s, p.throttled, adopted) && p.procs == s.procs && CanRestore(p, pids, calls)
    ensures var r := Restored(p, pids, calls);
      Owed(s.(procs := r.procs), r.throttled, adopted) && SameLives(p.procs, r.procs)
  {
    hide InOrder;
    var r := Restored(p, pids, calls);
    var t := s.(procs := r.procs);
    forall pid | pid in t.procs
      ensures InOrder(MachineOf(t, pid), EntryOf(r.throttled, pid), pid in adopted, t.procs[pid])
      ensures t.procs[pid].exited == s.procs[pid].exited
    {
      assert InOrder(MachineOf(s, pid), EntryOf(p.throttled, pid), pid in adopted, s.procs[pid]);
      if pid in pids && pid in p.throttled {
        RestoreInOrder(MachineOf(s, pid), p.throttled[pid], pid in adopted, p.procs[pid], calls(pid));
      }
    }
  }

  lemma ForgottenInOrder(m: Option<Machine>, e: Option<Entry>, adopted: bool, q: Proc)
    requires InOrder(m, e, adopted, q) && q.exited
    ensures InOrder(m, None, adopted, q)
  {
  }

  lemma ForgetKeepsOrder(s: System, p: Protector, adopted: set<Pid>)
    requires Owed(s, p.throttled, adopted) && p.procs == s.procs
    ensures Owed(s, Forgotten(p).throttled, adopted)
  {
    hide InOrder;
    var r := Forgotten(p);
    forall pid | pid in s.procs
      ensures InOrder(MachineOf(s, pid), EntryOf(r.throttled, pid), pid in adopted, s.procs[pid])
    {
      if pid in ExitedEntries(p) {
        ForgottenInOrder(MachineOf(s, pid), EntryOf(p.throttled, pid), pid in adopted, s.procs[pid]);
      }
    }
  }

  lemma SinkInOrder(m: Option<Machine>, e: Entry, adopted: bool, q: Proc, target: Priority)
    requires InOrder(m, Some(e), adopted, q) && Rank(e.current) > Rank(target)
    ensures InOrder(m, Some(e.(current := target)), adopted, q.(priority := target))
  {
  }

  /** Lowering what auto-protect already holds keeps everything in order. */
  lemma EscalateKeepsOrder(s: System, p: Protector, adopted: set<Pid>, pids: set<Pid>, target: Priority,
                           calls: Answers)
    requires Owed(s, p.throttled, adopted) && p.procs == s.procs
    ensures var r := Escalated(p, pids, target, calls);
      Owed(s.(procs := r.procs), r.throttled, adopted) && SameLives(p.procs, r.procs)
  {
    hide InOrder;
    var r := Escalated(p, pids, target, calls);
    var t := s.(procs := r.procs);
    forall pid | pid in t.procs
      ensures InOrder(MachineOf(t, pid), EntryOf(r.throttled, pid), pid in adopted, t.procs[pid])
      ensures t.procs[pid].exited == s.procs[pid].exited
    {
      assert InOrder(MachineOf(s, pid), EntryOf(p.throttled, pid), pid in adopted, s.procs[pid]);
      if pid in pids && pid in p.throttled && CanSink(p.throttled[pid], target, calls(pid)) {
        SinkInOrder(MachineOf(s, pid), p.throttled[pid], pid in adopted, p.procs[pid], target);
      }
    }
  }

  /** A process that is neither managed nor held is on an own priority, which is the one to give back. */
  lemma CatchInOrder(adopted: bool, q: Proc, target: Priority)
    requires InOrder(None, None, adopted, q) && Rank(q.priority) > Rank(target)
    ensures InOrder(None, Some(Entry(q.priority, target)), adopted, q.(priority := target))
  {
  }

  lemma LowerKeepsOrder(s: System, p: Protector, adopted: set<Pid>, pid: Pid, target: Priority, c: Calls)
    requires Owed(s, p.throttled, adopted) && p.procs == s.procs && pid !in p.throttled && pid !in s.machines
    ensures var r := Lowered(p, pid, target, c);
      Owed(s.(procs := r.procs), r.throttled, adopted) && SameLives(p.procs, r.procs)
  {
    hide InOrder;
    var r := Lowered(p, pid, target, c);
    var t := s.(procs := r.procs);
    if CanLower(p, pid, target, c) {
      CatchInOrder(pid in adopted, p.procs[pid], target);
      forall k | k in t.procs ensures InOrder(MachineOf(t, k), EntryOf(r.throttled, k), k in adopted, t.procs[k]) {
        assert InOrder(MachineOf(s, k), EntryOf(p.throttled, k), k in adopted, s.procs[k]);
      }
    } else {
      OwnProcs(s);
    }
  }

  lemma {:induction false} LowerAllKeepsOrder(s: System, p: Protector, adopted: set<Pid>,
                                              chosen: seq<Candidate>, target: Priority, calls: Answers)
    requires Owed(s, p.throttled, adopted) && p.procs == s.procs && DistinctPids(chosen)
    requires forall c :: c in chosen ==> c.pid !in p.throttled && c.pid !in s.machines
    ensures var r := LoweredAll(p, chosen, target, calls);
      Owed(s.(procs := r.procs), r.throttled, adopted) && SameLives(p.procs, r.procs)
  {
    hide Lowered, NewAreChosen, SameLife, Owed, SameLives;
    if chosen == [] {
      OwnProcs(s);
      SameLivesNow(p.procs);
    } else {
      var init, last := chosen[..|chosen| - 1], chosen[|chosen| - 1];
      assert chosen == init + [last];
      LowerAllAdds(p, init, target, calls);
      LowerAllKeepsOrder(s, p, adopted, init, target, calls);
      var q := LoweredAll(p, init, target, calls);
      NotChosenYet(p, q, init, last);
      LowerKeepsOrder(s.(procs := q.procs), q, adopted, last.pid, target, calls(last.pid));
      SameLivesChain(p.procs, q.procs, LoweredAll(p, chosen, target, calls).procs);
    }
  }

  lemma SameLivesNow(a: Procs)
    ensures SameLives(a, a)
  {
  }

  /** A tick keeps everything in order: it holds nothing that is managed. */
  lemma TickKeepsOrder(s: System, p: Protector, adopted: set<Pid>, cpu: real, rows: seq<Row>,
                       exclude: (string, Pid) -> bool, calls: Answers, chosen: seq<Candidate>)
    requires Owed(s, p.throttled, adopted) && p.procs == s.procs && OnePerPid(rows)
    requires RightChoice(p, cpu, rows, exclude, calls, chosen) && (!Elevated(p, cpu) ==> Restores(p, calls))
    requires forall name, pid :: pid in s.machines ==> exclude(name, pid)
    ensures var r := Ticked(p, cpu, rows, calls, chosen);
      Owed(s.(procs := r.procs), r.throttled, adopted) && SameLives(p.procs, r.procs)
  {
    hide Owed, SameLives, IsTop, Eligible, OnePerPid, Escalated, LoweredAll, Restored,
         AutoPolicy.Updated;
    OwnProcs(s);
    SameLivesNow(p.procs);
    var level := AutoPolicy.Updated(p.level, cpu, p.settings);
    var f := Forgotten(p).(level := level);
    ForgetKeepsOrder(s, p, adopted);
    if Elevated(p, cpu) {
      var target := TargetOf(level.level);
      var g := Pruned(f, rows);
      EscalateKeepsOrder(s, g, adopted, g.throttled.Keys, target, calls);
      var q := BeforeChoice(p, cpu, rows, calls);
      BeforeChoiceShape(p, cpu, rows, calls);
      ChoiceIsNew(q, rows, exclude, chosen);
      var u := s.(procs := q.procs);
      LowerAllKeepsOrder(u, q, adopted, chosen, target, calls);
      SameLivesChain(p.procs, q.procs, LoweredAll(q, chosen, target, calls).procs);
    } else if p.settings.enabled {
      RestoreKeepsOrder(s, f, adopted, f.throttled.Keys, calls);
    }
  }

  /** Both parts of a world that agree on the processes, and nothing newly adopted. */
  lemma SameService(w: World)
    requires w.p.procs == w.d.sys.procs
    ensures WithService(w, w.d) == w
  {
    assert Adopted(w.d.sys, w.d.sys, w.p.throttled) == {};
    assert w.adopted + {} == w.adopted;
  }

  lemma NothingAdopted(s: System, t: System, entries: map<Pid, Entry>, adopted: set<Pid>)
    requires t.machines.Keys <= s.machines.Keys
    ensures Adopted(s, t, entries) == {} && adopted + Adopted(s, t, entries) == adopted
  {
  }

  /** What a step does to the managed processes keeps everything in order, and adopts what it says. */
  lemma ServedIsSafe(w: World, step: Step)
    requires Sound(w) && Enabled(w, step) && !step.Outer?
    ensures var d := Served(w, step);
      Safe(d, w.p.throttled, w.adopted + Adopted(w.d.sys, d.sys, w.p.throttled)) &&
      SameLives(w.d.sys.procs, d.sys.procs)
  {
    hide Owed, NoneProtected, AllLucky, LeavesGently, Polled, Reloaded, Commanded, Actuators.Configured, RecoveredAll,
         Added, SameLives, Restores, Tidy, RightChoice, OnePerPid, Elevated, Adopted;
    var s, entries := w.d.sys, w.p.throttled;
    SameLivesNow(s.procs);
    match step
    case Discover(pid) => AddIsSafe(s, entries, w.adopted, w.names(pid), pid);
    case Thresholds(config, luck) =>
      Daemon.ConfigureKeeps(s, entries, w.adopted, {}, config, luck);
      ConfigureTouchesNothing(s, config, luck);
      NothingAdopted(s, Actuators.Configured(s, config, luck), entries, w.adopted);
    case Poll(percent, luck) =>
      PollIsSafe(w.d, entries, w.adopted, percent, luck);
      PollSameLives(w.d, percent, luck);
      NothingAdopted(s, Polled(w.d, percent, luck).sys, entries, w.adopted);
    case Reload(critical, batch, config, protect, _, luck, _) =>
      ReloadIsSafe(w.d, entries, w.adopted, critical, batch, config, protect, luck);
      ReloadSameLives(w.d, critical, batch, config, protect, luck);
      NothingAdopted(s, Reloaded(w.d, critical, batch, config, protect, luck).sys, entries, w.adopted);
    case Command(verb, pid, percent, luck) =>
      CommandIsSafe(w.d, entries, w.adopted, verb, w.names(pid), pid, percent, luck);
      CommandSameLives(w.d, verb, w.names(pid), pid, percent, luck);
    case Tick(_, _, _, _) => NothingAdopted(s, s, entries, w.adopted);
    case Exempt(_, _) => NothingAdopted(s, s, entries, w.adopted);
    case Shutdown(luck, _) =>
      RecoverAllIsSafe(s, entries, w.adopted, luck);
      RecoverSameLives(s, luck);
      NothingAdopted(s, RecoveredAll(s, luck), entries, w.adopted);
  }

  lemma PollSameLives(d: Service, percent: real, luck: Pid -> Luck)
    ensures SameLives(d.sys.procs, Polled(d, percent, luck).sys.procs)
    ensures Polled(d, percent, luck).sys.machines.Keys <= d.sys.machines.Keys
  {
    hide Swept, SameLives;
    SweepSameLives(d.sys, d.sys.machines.Keys - Exited(d.sys), Exited(d.sys), Update(percent), luck);
  }

  lemma RecoverSameLives(s: System, luck: Pid -> Luck)
    ensures SameLives(s.procs, RecoveredAll(s, luck).procs) && RecoveredAll(s, luck).machines.Keys == s.machines.Keys
  {
    hide Swept, SameLives;
    SweepSameLives(s, s.machines.Keys, {}, ForceRecover, luck);
  }

  /** What a step does to auto-protect keeps everything in order too. */
  lemma GuardedIsSound(v: World, step: Step)
    requires Sound(v) && !step.Outer? && CanGuard(v, step)
    ensures Sound(WithGuard(v, Guarded(v.p, v.names, step)))
    ensures SameLives(v.p.procs, Guarded(v.p, v.names, step).procs)
  {
    hide Owed, SameLives, Tidy, RightChoice, OnePerPid, Elevated, Ticked, Restored, Misplaced, IsProtected;
    var s, p, adopted := v.d.sys, v.p, v.adopted;
    OwnProcs(s);
    SameLivesNow(p.procs);
    var r := Guarded(p, v.names, step);
    StillUnprotected(s, r.procs);
    match step
    case Tick(cpu, rows, calls, chosen) =>
      TickKeepsOrder(s, p, adopted, cpu, rows, Excludes(v.d), calls, chosen);
      TickIsTidy(p, cpu, rows, Excludes(v.d), calls, chosen);
    case Exempt(pid, calls) =>
      RestoreKeepsOrder(s, p, adopted, {pid}, calls);
      ExcuseIsTidy(p, {pid}, calls);
    case Reload(critical, batch, _, protect, settings, _, calls) =>
      ReloadKeepsOrder(s, p, adopted, settings, v.names, critical + batch + protect, calls);
    case Shutdown(_, calls) =>
      RestoreKeepsOrder(s, p, adopted, p.throttled.Keys, calls);
      RestoreAllIsTidy(p, calls);
    case _ =>
  }

  lemma StillUnprotected(s: System, procs: Procs)
    ensures NoneProtected(s) ==> NoneProtected(s.(procs := procs))
  {
  }

  lemma ExcuseIsTidy(p: Protector, pids: set<Pid>, calls: Answers)
    requires Tidy(p)
    ensures Tidy(Excused(p, pids, calls))
  {
    assert p.throttled == map[] ==> p.throttled - pids == map[];
  }

  lemma RestoreAllIsTidy(p: Protector, calls: Answers)
    requires Tidy(p)
    ensures var r := Restored(p, p.throttled.Keys, calls); Tidy(r) && r.throttled == map[]
  {
    assert p.throttled - p.throttled.Keys == map[];
  }

  lemma ReloadKeepsOrder(s: System, p: Protector, adopted: set<Pid>, settings: Settings,
                         names: Pid -> string, configured: set<string>, calls: Answers)
    requires Owed(s, p.throttled, adopted) && p.procs == s.procs && Tidy(p)
    requires CanRestore(p, GivenUp(p, names, settings, configured), calls)
    ensures var q := AutoProtect.Configured(p, settings, calls);
      var r := Excused(q, Misplaced(q, names, configured), calls);
      Owed(s.(procs := r.procs), r.throttled, adopted) && Tidy(r) && SameLives(p.procs, r.procs)
  {
    hide Owed, SameLives, Restored;
    var q := AutoProtect.Configured(p, settings, calls);
    OwnProcs(s);
    SameLivesNow(p.procs);
    if !settings.enabled {
      var f := p.(settings := settings);
      RestoreKeepsOrder(s, f, adopted, f.throttled.Keys, calls);
      RestoredNone(f, calls);
    }
    var t, pids := s.(procs := q.procs), Misplaced(q, names, configured);
    RestoreKeepsOrder(t, q, adopted, pids, calls);
    ExcuseIsTidy(q, pids, calls);
    SameLivesChain(p.procs, q.procs, Excused(q, pids, calls).procs);
  }

  lemma OuterIsSound(w: World, e: Outside, name: string)
    requires Sound(w) && Enabled(w, Outer(e, name))
    ensures Sound(Taken(w, Outer(e, name)))
  {
    hide Owed, NoneProtected, Affected, Adopted;
    OutsideIsSafe(w.d.sys, w.p.throttled, w.adopted, e);
    NothingAdopted(w.d.sys, Happened(w.d.sys, e), w.p.throttled, w.adopted);
  }

  lemma ServedIsSound(w: World, step: Step)
    requires Sound(w) && Enabled(w, step) && !step.Outer?
    ensures Sound(WithService(w, Served(w, step))) && SameLives(w.d.sys.procs, Served(w, step).sys.procs)
    ensures step.Tick? ==> WithService(w, Served(w, step)) == w
  {
    hide Safe, SameLives, Adopted, AllLucky, LeavesGently, RightChoice, OnePerPid, Elevated;
    ServedIsSafe(w, step);
    SameService(w);
  }

  /** Every step keeps everything in order. */
  lemma StepIsSound(w: World, step: Step)
    requires Sound(w) && Enabled(w, step)
    ensures Sound(Taken(w, step))
  {
    hide Safe, Guarded, Adopted, AllLucky, LeavesGently, Served, RightChoice, OnePerPid, Elevated, Tidy;
    if step.Outer? {
      OuterIsSound(w, step.e, step.name);
    } else {
      ServedIsSound(w, step);
      GuardedIsSound(WithService(w, Served(w, step)), step);
    }
  }

  /** The names in the table are the names of the processes, so they are those of the eligible ones. */
  lemma {:induction false} EligibleNames(p: Protector, rows: seq<Row>, exclude: (string, Pid) -> bool,
                                         names: Pid -> string)
    requires forall r :: r in rows ==> r.name == names(r.pid)
    ensures forall c :: c in Eligible(p, rows, exclude) ==> c.name == names(c.pid)
  {
    if rows != [] { EligibleNames(p, rows[..|rows| - 1], exclude, names); }
  }

  lemma ChosenAreUnlisted(w: World, cpu: real, rows: seq<Row>, calls: Answers, chosen: seq<Candidate>)
    requires Tidy(w.p) && Enabled(w, Step.Tick(cpu, rows, calls, chosen)) && Elevated(w.p, cpu)
    ensures forall c :: c in chosen ==> IsUnlisted(w, c.pid)
  {
    hide OnePerPid, BeforeChoice, Ticked, AutoPolicy.Updated, Tidy, IsEligible;
    TickIsTidy(w.p, cpu, rows, Excludes(w.d), calls, chosen);
    EligibleNames(BeforeChoice(w.p, cpu, rows, calls), rows, Excludes(w.d), w.names);
  }

  /** A tick holds nothing whose name is configured: the choice excludes it. */
  /** Whom the service lets auto-protect choose: neither configured nor managed, besides what auto-protect asks for. */
  lemma CandidatesExactly(w: World, step: Step, c: Candidate)
    requires step.Tick? && Enabled(w, step)
    ensures AutoProtect.MayBeChosen(w.p, step.rows, Excludes(w.d), c) <==>
      c.cpu >= w.p.settings.minProcessCpuPercent && c.pid !in w.p.exempt && IsUnlisted(w, c.pid) &&
      c.pid !in w.d.sys.machines && (c.pid in w.p.throttled ==> Look(w.p.procs, c.pid).exited) &&
      exists r :: r in step.rows && r.accessible && r.ordinary && c == Candidate(r.pid, r.name, r.cpu)
  {
    hide CanGuard;
  }

  lemma TickIsUnlisted(w: World, cpu: real, rows: seq<Row>, calls: Answers, chosen: seq<Candidate>)
    requires Sound(w) && Unlisted(w) && Enabled(w, Step.Tick(cpu, rows, calls, chosen))
    ensures var r := Ticked(w.p, cpu, rows, calls, chosen); Unlisted(w.(p := r))
  {
    hide Owed, NoneProtected, OnePerPid, RightChoice, Restored, BeforeChoice, LoweredAll, AutoPolicy.Updated,
         Tidy, Ticked;
    var p, exclude := w.p, Excludes(w.d);
    TickKeepsOrder(w.d.sys, p, w.adopted, cpu, rows, exclude, calls, chosen);
    TickIsTidy(p, cpu, rows, exclude, calls, chosen);
    if Elevated(p, cpu) {
      ChosenAreUnlisted(w, cpu, rows, calls, chosen);
    } else {
      TickHoldsNoMore(p, cpu, rows, calls, chosen);
    }
  }

  lemma TickHoldsNoMore(p: Protector, cpu: real, rows: seq<Row>, calls: Answers,
                        chosen: seq<Candidate>)
    requires !Elevated(p, cpu)
    ensures Ticked(p, cpu, rows, calls, chosen).throttled.Keys <= p.throttled.Keys
  {
    hide AutoPolicy.Updated;
  }

  /** Only a reload changes what is configured. */
  lemma ServedLists(w: World, step: Step)
    requires !step.Outer?
    ensures var d := Served(w, step);
      if step.Reload? then d.critical == step.critical && d.batch == step.batch && d.sys.protectedNames == step.protect
      else d.critical == w.d.critical && d.batch == w.d.batch && d.sys.protectedNames == w.d.sys.protectedNames
  {
    hide Swept, Reloaded, Commanded;
    match step
    case Reload(critical, batch, config, protect, _, luck, _) =>
      ReloadSameLives(w.d, critical, batch, config, protect, luck);
    case Command(verb, pid, percent, luck) => CommandSameLives(w.d, verb, w.names(pid), pid, percent, luck);
    case _ =>
  }

  /** A reload gives back whatever it configures. */
  lemma ReloadIsUnlisted(v: World, step: Step)
    requires step.Reload? && SameLives(v.p.procs, Guarded(v.p, v.names, step).procs)
    requires v.d.critical == step.critical && v.d.batch == step.batch && v.d.sys.protectedNames == step.protect
    ensures Unlisted(WithGuard(v, Guarded(v.p, v.names, step)))
  {
    hide AutoProtect.Configured;
    var q := AutoProtect.Configured(v.p, step.settings, step.calls);
    var pids := Misplaced(q, v.names, step.critical + step.batch + step.protect);
    var r := Excused(q, pids, step.calls);
    forall pid | pid in r.throttled && !Look(r.procs, pid).exited ensures pid in q.throttled && pid !in pids {}
    forall pid | pid in r.throttled && !Look(r.procs, pid).exited ensures !Look(q.procs, pid).exited {}
  }

  lemma OuterIsUnlisted(w: World, e: Outside, name: string)
    requires Sound(w) && Unlisted(w) && Enabled(w, Outer(e, name))
    ensures Unlisted(Taken(w, Outer(e, name)))
  {
    hide Safe, Tidy, Adopted;
    if !e.Created? { AffectedLife(Look(w.d.sys.procs, e.pid), e); }
    hide Affected;
  }

  lemma AffectedLife(p: Proc, e: Outside)
    requires !e.Created?
    ensures p.exited ==> Affected(p, e).exited
  {
  }

  /** No step lets auto-protect hold a running process whose name is configured. */
  lemma StepIsUnlisted(w: World, step: Step)
    requires Sound(w) && Unlisted(w) && Enabled(w, step)
    ensures Unlisted(Taken(w, step))
  {
    hide Safe, AllLucky, LeavesGently, Served, RightChoice, OnePerPid, Elevated, Tidy, Adopted, Ticked;
    if step.Outer? {
      OuterIsUnlisted(w, step.e, step.name);
    } else {
      ServedIsSound(w, step);
      ServedLists(w, step);
      var v := WithService(w, Served(w, step));
      if step.Tick? {
        TickIsUnlisted(w, step.cpu, step.rows, step.calls, step.chosen);
      } else {
        GuardedIsSound(v, step);
        if step.Reload? { ReloadIsUnlisted(v, step); }
      }
    }
  }

  /** If this step samples the process table under load, the process is in it. */
  predicate IsSeen(w: World, step: Step, pid: Pid) {
    step.Tick? && Elevated(w.p, step.cpu) ==> exists row :: row in step.rows && row.pid == pid
  }

  /** Only a sample of the table without the process ends an exemption. */
  lemma StepKeepsExemption(w: World, step: Step, pid: Pid)
    requires Sound(w) && Enabled(w, step) && pid in w.p.exempt && IsSeen(w, step, pid)
    ensures pid in Taken(w, step).p.exempt
  {
    hide Safe, Smooth, Served, RightChoice, OnePerPid, Ticked, Tidy, Adopted, AutoPolicy.Updated;
    if step.Tick? {
      ServedIsSound(w, step);
      assert Taken(w, step).p == Ticked(w.p, step.cpu, step.rows, step.calls, step.chosen);
      if Elevated(w.p, step.cpu) {
        HeldArePresent(w);
        TickExactly(w.p, step.cpu, step.rows, Excludes(w.d), step.calls, step.chosen, pid);
      } else if w.p.settings.enabled {
        CalmTickExactly(w.p, step.cpu, step.rows, step.calls, step.chosen, pid);
      } else {
        OffTickDoesNothing(w.p, step.cpu, step.rows, step.calls, step.chosen);
      }
    }
  }

  lemma HeldArePresent(w: World)
    requires Sound(w)
    ensures forall pid :: pid in w.p.throttled ==> pid in w.p.procs
  {
  }
}
