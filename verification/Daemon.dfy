/**
 What the daemon does with the managed processes (Daemon.cpp: polling, reloading, manual commands), and
 what each operation keeps, given the processes that auto-protect holds. Other programs change no
 priorities; they do suspend and resume threads.
 */
module Daemon {
  import opened OsControl
  import opened StateMachine
  import opened Actuators
  import opened Bytes

  /** `adhoc` are the processes that came under management by a command. */
  datatype Service = Service(sys: System, adhoc: set<Pid>, critical: set<string>, batch: set<string>)

  datatype Verb = Throttle | Suspend | Resume | Release

  /** A poll updates all machines and forgets ad-hoc processes that are gone. */
  function Polled(d: Service, percent: real, luck: Pid -> Luck): Service {
    var sys := UpdatedAll(d.sys, percent, luck);
    d.(sys := sys, adhoc := d.adhoc * sys.machines.Keys)
  }

  /** Managed processes that are neither configured nor ad hoc. */
  function Stale(d: Service): (stale: set<Pid>)
    ensures stale <= d.sys.machines.Keys
  {
    set pid | pid in d.sys.machines && d.sys.machines[pid].name !in d.batch && pid !in d.adhoc
  }

  function StaleDropped(d: Service, luck: Pid -> Luck): Service {
    d.(sys := Swept(d.sys, Stale(d), Stale(d), ForceRecover, luck))
  }

  /** New thresholds, then the new protection list, then names that are no longer configured. */
  function Reloaded(d: Service, critical: set<string>, batch: set<string>, config: Config, names: set<string>,
                    luck: Pid -> Luck): Service
  {
    var sys := Protecting(Configured(d.sys, config, luck), names, luck);
    StaleDropped(Service(sys, d.adhoc, critical, batch), luck)
  }

  /** One manual command for one process; `percent` is the last pressure reading. */
  function Commanded(d: Service, verb: Verb, name: string, pid: Pid, handle: bool, percent: real,
                     luck: Pid -> Luck): Service
  {
    if name in d.critical then d
    else if verb.Throttle? || verb.Suspend?
      then Held(d, if verb.Throttle? then Throttled else Suspended, name, pid, handle, percent, luck)
    else if pid !in d.sys.machines then d
    else if verb.Resume? then d.(sys := Acted(d.sys, {pid}, ForceState(Normal, percent, true), luck))
    else LetGo(d.(sys := Acted(d.sys, {pid}, ReleaseManualHold, luck)), pid)
  }

  /** Critical and protected processes are refused; only a managed one can be resumed or released. */
  predicate Accepted(d: Service, verb: Verb, name: string, pid: Pid) {
    name !in d.critical &&
    (if verb.Throttle? || verb.Suspend? then pid in d.sys.machines || !IsProtected(d.sys, name, pid)
      else pid in d.sys.machines)
  }

  function Held(d: Service, to: State, name: string, pid: Pid, handle: bool, percent: real,
                luck: Pid -> Luck): Service
  {
    var sys := Added(d.sys, name, pid, handle);
    if pid !in sys.machines then d
    else Service(Acted(sys, {pid}, ForceState(to, percent, true), luck),
                 if pid in d.sys.machines then d.adhoc else d.adhoc + {pid}, d.critical, d.batch)
  }

  /** A released ad-hoc process is dropped if it is back to normal. */
  function LetGo(d: Service, pid: Pid): Service
    requires pid in d.sys.machines
  {
    if pid in d.adhoc && d.sys.machines[pid].control.state.Normal?
    then d.(sys := Dropped(d.sys, {pid}), adhoc := d.adhoc - {pid})
    else d
  }

  // ---------------------------------------------------------- invariants

  function MachineOf(s: System, pid: Pid): Option<Machine> {
    if pid in s.machines then Some(s.machines[pid]) else None
  }

  function EntryOf(entries: map<Pid, Entry>, pid: Pid): Option<Entry> {
    if pid in entries then Some(entries[pid]) else None
  }

  /**
   Every process is in order, given the entries of auto-protect and the processes that came under
   management while it held them. Of the live ones only those are managed and held at the same time.
   */
  ghost predicate Owed(s: System, entries: map<Pid, Entry>, adopted: set<Pid>) {
    (forall pid :: pid in s.machines || pid in entries ==> pid in s.procs) &&
    (forall pid :: pid in s.machines && pid in entries ==> pid in adopted || Look(s.procs, pid).exited) &&
    (forall pid :: pid in s.procs ==> InOrder(MachineOf(s, pid), EntryOf(entries, pid), pid in adopted, s.procs[pid]))
  }

  /** No protected process is managed. */
  predicate NoneProtected(s: System) {
    forall pid :: pid in s.machines ==> !IsProtected(s, s.machines[pid].name, pid)
  }

  ghost predicate AllLucky(s: System, luck: Pid -> Luck) {
    forall pid :: pid in s.procs ==> Lucky(s.procs[pid], luck(pid))
  }

  /** No thread of this live suspended process that is not ours to resume is suspended by anyone else. */
  predicate MayResume(s: System, pid: Pid) {
    pid in s.machines && pid in s.procs && !s.procs[pid].exited && s.machines[pid].control.state.Suspended? ==>
      Quiet(s.procs[pid].threads)
  }

  /** Only processes that may be are resumed or dropped on the way from s to t. */
  predicate LeavesGently(s: System, t: System) {
    forall pid :: pid in s.machines && !(pid in t.machines && t.machines[pid].control.state.Suspended?) ==>
      MayResume(s, pid)
  }

  /** The calls of a sweep succeed, and resume only what they may. */
  ghost predicate CanAct(s: System, acting: set<Pid>, a: Action, luck: Pid -> Luck) {
    forall pid :: pid in acting && pid in s.machines && pid in s.procs ==>
      Lucky(s.procs[pid], luck(pid)) && Gentle(s.machines[pid], s.procs[pid], a, luck(pid))
  }

  /** Machines may be dropped if their process has exited or they end in the normal state. */
  predicate MayDrop(s: System, acting: set<Pid>, dropping: set<Pid>, a: Action, luck: Pid -> Luck) {
    forall pid :: pid in dropping && pid in s.machines && pid in s.procs ==>
      s.procs[pid].exited ||
      (if pid in acting then Act(s.machines[pid], s.procs[pid], a, luck(pid)).0
       else s.machines[pid]).control.state.Normal?
  }

  /** A machine that is dropped when its process has exited or it is in the normal state leaves it in order. */
  lemma DropInOrder(m: Machine, e: Option<Entry>, adopted: bool, p: Proc)
    requires InOrder(Some(m), e, adopted, p) && (p.exited || (m.control.state.Normal? && (e.Some? ==> adopted)))
    ensures InOrder(None, e, adopted, p)
  {
  }

  lemma SweepKeepsOwed(s: System, entries: map<Pid, Entry>, adopted: set<Pid>,
                       acting: set<Pid>, dropping: set<Pid>, a: Action, luck: Pid -> Luck)
    requires Owed(s, entries, adopted) && CanAct(s, acting, a, luck) && MayDrop(s, acting, dropping, a, luck)
    ensures Owed(Swept(s, acting, dropping, a, luck), entries, adopted)
  {
    hide Act, Lucky, Gentle, InOrder;
    var t := Swept(s, acting, dropping, a, luck);
    forall pid | pid in t.procs
      ensures InOrder(MachineOf(t, pid), EntryOf(entries, pid), pid in adopted, t.procs[pid])
      ensures t.procs[pid].exited == s.procs[pid].exited
    {
      if pid in s.machines {
        var m, p, e := s.machines[pid], s.procs[pid], EntryOf(entries, pid);
        if pid in acting { ActKeepsOrder(m, e, pid in adopted, p, a, luck(pid)); }
        if pid in dropping {
          var r := if pid in acting then Act(m, p, a, luck(pid)) else (m, p);
          DropInOrder(r.0, e, pid in adopted, r.1);
        }
      }
    }
  }

  lemma SweepKeepsUnprotected(s: System, acting: set<Pid>, dropping: set<Pid>, a: Action, luck: Pid -> Luck)
    requires forall pid :: pid in s.machines && pid !in dropping ==> !IsProtected(s, s.machines[pid].name, pid)
    ensures NoneProtected(Swept(s, acting, dropping, a, luck))
  {
    var t := Swept(s, acting, dropping, a, luck);
    forall pid | pid in t.machines ensures !IsProtected(t, t.machines[pid].name, pid) {
      SameName(s.machines[pid], Look(s.procs, pid), a, luck(pid));
    }
  }

  /** Which commands are accepted; the others change nothing at all. */
  lemma AcceptedExactly(d: Service, verb: Verb, name: string, pid: Pid, handle: bool, percent: real, luck: Pid -> Luck)
    ensures var allowed := name !in d.critical && (pid in d.sys.machines || (verb in {Verb.Throttle, Verb.Suspend} &&
        pid != d.sys.self && name !in ALWAYS_PROTECTED && name !in d.sys.protectedNames));
      (Accepted(d, verb, name, pid) <==> allowed) &&
      (!allowed ==> Commanded(d, verb, name, pid, handle, percent, luck) == d)
  {
    hide Act, Acted;
  }

  /** An accepted throttle or suspend puts the process under management, in that state, until it is released. */
  lemma CommandTakesHold(d: Service, verb: Verb, name: string, pid: Pid, handle: bool, percent: real, luck: Pid -> Luck)
    requires (verb.Throttle? || verb.Suspend?) && Accepted(d, verb, name, pid)
    ensures var r := Commanded(d, verb, name, pid, handle, percent, luck);
      pid in r.sys.machines && (pid in d.sys.machines || pid in r.adhoc) &&
      r.sys.machines[pid].control.hold &&
      r.sys.machines[pid].control.state == if verb.Throttle? then Throttled else Suspended
  {
    hide Transition;
    TransitionState(if pid in d.sys.machines then d.sys.machines[pid]
      else Machine(name, pid, handle, Start(d.sys.config), []),
                    Look(d.sys.procs, pid), if verb.Throttle? then Throttled else Suspended, percent, luck(pid));
  }

  lemma TransitionState(m: Machine, p: Proc, to: State, percent: real, luck: Luck)
    ensures var r := Forced(m, p, to, percent, true, luck).0; r.control.state == to && r.control.hold
  {
  }

  /**
   Resume holds the process in the normal state; release lets the machine go on as it is, and drops
   it if it is ad hoc and normal.
   */
  lemma ResumeAndRelease(d: Service, name: string, pid: Pid, handle: bool, percent: real, luck: Pid -> Luck)
    requires pid in d.sys.machines && name !in d.critical
    ensures var r := Commanded(d, Verb.Resume, name, pid, handle, percent, luck);
      pid in r.sys.machines && r.sys.machines[pid].control.state.Normal? && r.sys.machines[pid].control.hold &&
      r.adhoc == d.adhoc
    ensures var r := Commanded(d, Verb.Release, name, pid, handle, percent, luck);
      var c := d.sys.machines[pid].control;
      (if pid in d.adhoc && c.state.Normal? then pid !in r.sys.machines && pid !in r.adhoc
       else pid in r.sys.machines && r.sys.machines[pid].control == c.(hold := false) && r.adhoc == d.adhoc) &&
      (pid in d.sys.procs ==> r.sys.procs[pid] == d.sys.procs[pid])
  {
    hide Transition;
    TransitionState(d.sys.machines[pid], Look(d.sys.procs, pid), Normal, percent, luck(pid));
  }

  /** After a poll every ad-hoc process is managed, and no managed process had exited before it. */
  lemma PollForgetsGone(d: Service, percent: real, luck: Pid -> Luck)
    ensures var r := Polled(d, percent, luck);
      r.adhoc == d.adhoc * r.sys.machines.Keys && r.sys.machines.Keys <= d.sys.machines.Keys &&
      (forall pid :: pid in d.sys.machines ==>
        (pid in r.sys.machines <==> !HasExited(d.sys.machines[pid], Look(d.sys.procs, pid)))) &&
      (forall pid :: pid in r.sys.machines ==>
        r.sys.machines[pid].control == Sample(d.sys.machines[pid].control, percent))
  {
    hide Transition;
    forall pid | pid in d.sys.machines
      ensures Updated(d.sys.machines[pid], Look(d.sys.procs, pid), percent, luck(pid)).0.control ==
        Sample(d.sys.machines[pid].control, percent)
    {
      ActingFollowsControl(d.sys.machines[pid], Look(d.sys.procs, pid), percent, Normal, false, luck(pid));
    }
    hide Updated, Sample, HasExited;
  }

  /** A refused command changes nothing at all. */
  lemma RefusedChangesNothing(d: Service, verb: Verb, name: string, pid: Pid, handle: bool, percent: real,
                              luck: Pid -> Luck)
    requires !Accepted(d, verb, name, pid)
    ensures Commanded(d, verb, name, pid, handle, percent, luck) == d
  {
    hide Act, Acted;
  }

  /** After a reload every managed process is configured or ad hoc, and none is protected. */
  lemma ReloadLeavesConfigured(d: Service, critical: set<string>, batch: set<string>, config: Config,
                               names: set<string>, luck: Pid -> Luck, pid: Pid)
    ensures var r := Reloaded(d, critical, batch, config, names, luck);
      pid in r.sys.machines ==>
        (r.sys.machines[pid].name in batch || pid in r.adhoc) && pid in d.sys.machines &&
        !IsProtected(r.sys, r.sys.machines[pid].name, pid)
  {
    hide Act, IsProtected;
    var t := Configured(d.sys, config, luck);
    var s1 := t.(protectedNames := names);
    var s2 := Protecting(t, names, luck);
    var e := Service(s2, d.adhoc, critical, batch);
    if pid in Reloaded(d, critical, batch, config, names, luck).sys.machines {
      assert pid !in NowProtected(s1);
      SameProtection(s1, Reloaded(d, critical, batch, config, names, luck).sys, pid);
    }
  }

  /**
   What is managed after a reload: exactly what was and is configured or ad hoc and not protected, as it was
   but for the thresholds. The processes of the rest are recovered and no other process is touched.
   */
  lemma ReloadExactly(d: Service, critical: set<string>, batch: set<string>, config: Config, names: set<string>,
                      luck: Pid -> Luck, pid: Pid)
    ensures var r := Reloaded(d, critical, batch, config, names, luck);
      r == Service(r.sys, d.adhoc, critical, batch) && r.sys.config == config && r.sys.protectedNames == names &&
      r.sys.self == d.sys.self && r.sys.procs.Keys == d.sys.procs.Keys &&
      if pid !in d.sys.machines then
        pid !in r.sys.machines && (pid in d.sys.procs ==> r.sys.procs[pid] == d.sys.procs[pid])
      else
        var m := d.sys.machines[pid].(control := d.sys.machines[pid].control.(config := config));
        var stays := (m.name in batch || pid in d.adhoc) &&
          pid != d.sys.self && m.name !in ALWAYS_PROTECTED && m.name !in names;
        (pid in r.sys.machines <==> stays) && (stays ==> r.sys.machines[pid] == m) &&
        (pid in d.sys.procs ==>
          r.sys.procs[pid] == if stays then d.sys.procs[pid] else Recovered(m, d.sys.procs[pid], luck(pid)).1)
  {
    hide Recovered;
    var s := Configured(d.sys, config, luck);
    var t := s.(protectedNames := names);
    var e := Service(Protecting(s, names, luck), d.adhoc, critical, batch);
    assert s.procs == d.sys.procs && s.machines.Keys == d.sys.machines.Keys;
    assert pid in s.machines ==> (pid in NowProtected(t) <==> IsProtected(t, s.machines[pid].name, pid));
    assert pid in e.sys.machines <==> pid in s.machines && pid !in NowProtected(t);
    assert pid in Stale(e) <==> pid in e.sys.machines && e.sys.machines[pid].name !in batch && pid !in d.adhoc;
  }

  lemma SameProtection(s: System, t: System, pid: Pid)
    requires s.self == t.self && s.protectedNames == t.protectedNames
    requires pid in s.machines && pid in t.machines && s.machines[pid] == t.machines[pid] && pid !in NowProtected(s)
    ensures !IsProtected(t, t.machines[pid].name, pid)
  {
  }

  ghost predicate Safe(d: Service, entries: map<Pid, Entry>, adopted: set<Pid>) {
    Owed(d.sys, entries, adopted) && NoneProtected(d.sys)
  }

  lemma RecoverEndsNormal(m: Machine, p: Proc, luck: Luck)
    ensures Act(m, p, ForceRecover, luck).0.control.state.Normal?
  {
  }

  /** A poll keeps what is owed to every process, if OS calls succeed and what it resumes may be resumed. */
  lemma PollIsSafe(d: Service, entries: map<Pid, Entry>, adopted: set<Pid>, percent: real, luck: Pid -> Luck)
    requires Safe(d, entries, adopted) && AllLucky(d.sys, luck)
    requires LeavesGently(d.sys, Polled(d, percent, luck).sys)
    ensures Safe(Polled(d, percent, luck), entries, adopted)
  {
    hide Act, Lucky, IsProtected, InOrder, Quiet;
    var acting := d.sys.machines.Keys - Exited(d.sys);
    assert CanAct(d.sys, acting, Update(percent), luck);
    SweepKeepsOwed(d.sys, entries, adopted, acting, Exited(d.sys), Update(percent), luck);
    SweepKeepsUnprotected(d.sys, acting, Exited(d.sys), Update(percent), luck);
  }

  lemma RecoverAndDrop(s: System, entries: map<Pid, Entry>, adopted: set<Pid>, gone: set<Pid>, luck: Pid -> Luck)
    requires Owed(s, entries, adopted)
    requires forall pid :: pid in gone && pid in s.machines && pid in s.procs ==>
      Lucky(s.procs[pid], luck(pid)) && MayResume(s, pid)
    ensures Owed(Swept(s, gone, gone, ForceRecover, luck), entries, adopted)
  {
    hide Act, Lucky, InOrder, Quiet;
    forall pid | pid in gone && pid in s.machines && pid in s.procs
      ensures Act(s.machines[pid], s.procs[pid], ForceRecover, luck(pid)).0.control.state.Normal?
    {
      RecoverEndsNormal(s.machines[pid], s.procs[pid], luck(pid));
    }
    SweepKeepsOwed(s, entries, adopted, gone, gone, ForceRecover, luck);
  }

  /** Everything is in order, the calls on managed processes succeed, and the doomed ones may be resumed. */
  ghost predicate Ready(s: System, entries: map<Pid, Entry>, adopted: set<Pid>, doomed: set<Pid>, luck: Pid -> Luck) {
    Owed(s, entries, adopted) &&
    (forall pid :: pid in s.machines && pid in s.procs ==> Lucky(s.procs[pid], luck(pid))) &&
    forall pid :: pid in doomed ==> MayResume(s, pid)
  }

  /** New thresholds touch neither states nor processes. */
  lemma ConfigureTouchesNothing(s: System, config: Config, luck: Pid -> Luck)
    ensures var t := Configured(s, config, luck);
      t.procs == s.procs && t.machines.Keys == s.machines.Keys && t.self == s.self &&
      t.protectedNames == s.protectedNames &&
      forall pid :: pid in s.machines ==>
        t.machines[pid].control.state == s.machines[pid].control.state &&
        t.machines[pid].handle == s.machines[pid].handle && t.machines[pid].name == s.machines[pid].name
  {
    assert Configured(s, config, luck).procs == s.procs;
  }

  lemma SameStateInOrder(m: Machine, n: Machine, e: Option<Entry>, adopted: bool, p: Proc)
    requires m.handle == n.handle && m.control.state == n.control.state
    ensures InOrder(Some(m), e, adopted, p) <==> InOrder(Some(n), e, adopted, p)
  {
  }

  lemma ConfigureKeeps(s: System, entries: map<Pid, Entry>, adopted: set<Pid>, doomed: set<Pid>, config: Config,
                       luck: Pid -> Luck)
    requires Owed(s, entries, adopted)
    ensures Owed(Configured(s, config, luck), entries, adopted)
    ensures Ready(s, entries, adopted, doomed, luck) ==>
      Ready(Configured(s, config, luck), entries, adopted, doomed, luck)
    ensures NoneProtected(s) ==> NoneProtected(Configured(s, config, luck))
  {
    hide Lucky, InOrder, Quiet, Configured;
    var t := Configured(s, config, luck);
    ConfigureTouchesNothing(s, config, luck);
    forall pid | pid in t.procs
      ensures InOrder(MachineOf(t, pid), EntryOf(entries, pid), pid in adopted, t.procs[pid])
    {
      if pid in s.machines {
        SameStateInOrder(s.machines[pid], t.machines[pid], EntryOf(entries, pid), pid in adopted, s.procs[pid]);
      }
    }
  }

  lemma RecoverKeepsReady(s: System, entries: map<Pid, Entry>, adopted: set<Pid>, doomed: set<Pid>, gone: set<Pid>,
                          luck: Pid -> Luck)
    requires Ready(s, entries, adopted, doomed, luck) && gone <= doomed
    ensures Ready(Swept(s, gone, gone, ForceRecover, luck), entries, adopted, doomed, luck)
  {
    hide Lucky, Act, InOrder, Quiet, Owed;
    RecoverAndDrop(s, entries, adopted, gone, luck);
    var t := Swept(s, gone, gone, ForceRecover, luck);
    assert forall pid :: pid in t.machines ==> pid in s.machines && pid !in gone;
  }

  lemma ReloadIsSafe(d: Service, entries: map<Pid, Entry>, adopted: set<Pid>, critical: set<string>, batch: set<string>,
                     config: Config, names: set<string>, luck: Pid -> Luck)
    requires Safe(d, entries, adopted) && AllLucky(d.sys, luck)
    requires LeavesGently(d.sys, Reloaded(d, critical, batch, config, names, luck).sys)
    ensures Safe(Reloaded(d, critical, batch, config, names, luck), entries, adopted)
  {
    hide Lucky, Act, Owed, IsProtected, InOrder, MayResume, Configured;
    var end := Reloaded(d, critical, batch, config, names, luck).sys;
    var doomed := d.sys.machines.Keys - end.machines.Keys;
    assert Ready(d.sys, entries, adopted, doomed, luck) by { ReadyNow(d.sys, entries, adopted, doomed, luck); }
    var s1 := Configured(d.sys, config, luck);
    ConfigureKeeps(d.sys, entries, adopted, doomed, config, luck);
    ConfigureTouchesNothing(d.sys, config, luck);
    var s2 := s1.(protectedNames := names);
    NamesUnseen(s1, entries, adopted, doomed, names, luck);
    var gone := NowProtected(s2);
    var s3 := Swept(s2, gone, gone, ForceRecover, luck);
    assert s3 == Protecting(s1, names, luck);
    var stale := Stale(Service(s3, d.adhoc, critical, batch));
    assert end == Swept(s3, stale, stale, ForceRecover, luck);
    assert end.machines.Keys == (d.sys.machines.Keys - gone) - stale;
    assert gone <= doomed && stale <= doomed;
    RecoverKeepsReady(s2, entries, adopted, doomed, gone, luck);
    SweepKeepsUnprotected(s2, gone, gone, ForceRecover, luck);
    RecoverKeepsReady(s3, entries, adopted, doomed, stale, luck);
    SweepKeepsUnprotected(s3, stale, stale, ForceRecover, luck);
  }

  lemma ReadyNow(s: System, entries: map<Pid, Entry>, adopted: set<Pid>, doomed: set<Pid>, luck: Pid -> Luck)
    requires Owed(s, entries, adopted) && AllLucky(s, luck) && forall pid :: pid in doomed ==> MayResume(s, pid)
    ensures Ready(s, entries, adopted, doomed, luck)
  {
    hide Lucky, InOrder, MayResume;
  }

  lemma NamesUnseen(s: System, entries: map<Pid, Entry>, adopted: set<Pid>, doomed: set<Pid>, names: set<string>,
                    luck: Pid -> Luck)
    requires Ready(s, entries, adopted, doomed, luck)
    ensures Ready(s.(protectedNames := names), entries, adopted, doomed, luck)
  {
    hide Lucky, InOrder, Quiet;
    var t := s.(protectedNames := names);
    assert forall pid :: MachineOf(t, pid) == MachineOf(s, pid);
    assert forall pid :: MayResume(t, pid) == MayResume(s, pid);
  }

  /** The live processes that auto-protect holds and that come under management on the way from s to t. */
  function Adopted(s: System, t: System, entries: map<Pid, Entry>): set<Pid> {
    set pid | pid in t.machines && pid !in s.machines && pid in entries && !Look(s.procs, pid).exited
  }

  /** A process that is there and can be opened may come under management; if auto-protect holds it, it is adopted. */
  lemma AddIsSafe(s: System, entries: map<Pid, Entry>, adopted: set<Pid>, name: string, pid: Pid)
    requires Owed(s, entries, adopted) && NoneProtected(s) && pid in s.procs
    ensures var t := Added(s, name, pid, true);
      Owed(t, entries, adopted + Adopted(s, t, entries)) && NoneProtected(t) && t.procs == s.procs &&
      s.machines.Keys <= t.machines.Keys <= s.machines.Keys + {pid}
  {
    hide ThreadsKept, PriorityKept, EntryFits, OwnPriority;
    var t := Added(s, name, pid, true);
    var now := adopted + Adopted(s, t, entries);
    assert forall k :: k in t.procs ==> InOrder(MachineOf(t, k), EntryOf(entries, k), k in now, t.procs[k]);
    hide IsProtected;
  }

  lemma ActIsSafe(s: System, entries: map<Pid, Entry>, adopted: set<Pid>, pid: Pid, a: Action, luck: Pid -> Luck)
    requires Owed(s, entries, adopted) && NoneProtected(s) && AllLucky(s, luck) && pid in s.machines
    requires LeavesGently(s, Acted(s, {pid}, a, luck))
    ensures var t := Acted(s, {pid}, a, luck);
      Owed(t, entries, adopted) && NoneProtected(t) && t.machines.Keys == s.machines.Keys
  {
    hide Act, Lucky, IsProtected, InOrder, Quiet;
    var t := Acted(s, {pid}, a, luck);
    assert CanAct(s, {pid}, a, luck);
    SweepKeepsOwed(s, entries, adopted, {pid}, {}, a, luck);
    SweepKeepsUnprotected(s, {pid}, {}, a, luck);
    assert t.machines - {} == t.machines;
    assert Swept(s, {pid}, {}, a, luck) == t;
  }

  lemma HoldIsSafe(d: Service, entries: map<Pid, Entry>, adopted: set<Pid>, to: State, name: string, pid: Pid,
                   percent: real, luck: Pid -> Luck)
    requires Safe(d, entries, adopted) && AllLucky(d.sys, luck) && pid in d.sys.procs
    requires LeavesGently(d.sys, Held(d, to, name, pid, true, percent, luck).sys)
    ensures var r := Held(d, to, name, pid, true, percent, luck);
      Safe(r, entries, adopted + Adopted(d.sys, r.sys, entries))
  {
    hide Act, Acted, Lucky, IsProtected, Owed, NoneProtected, Quiet;
    var a := ForceState(to, percent, true);
    var t := Added(d.sys, name, pid, true);
    AddIsSafe(d.sys, entries, adopted, name, pid);
    if pid in t.machines {
      ActIsSafe(t, entries, adopted + Adopted(d.sys, t, entries), pid, a, luck);
    } else {
      assert adopted + Adopted(d.sys, d.sys, entries) == adopted;
      assert t.machines == d.sys.machines;
    }
  }

  /** So does every manual command; a process that it brings under management may be adopted. */
  lemma CommandIsSafe(d: Service, entries: map<Pid, Entry>, adopted: set<Pid>, verb: Verb, name: string, pid: Pid,
                      percent: real, luck: Pid -> Luck)
    requires Safe(d, entries, adopted) && AllLucky(d.sys, luck) && pid in d.sys.procs
    requires LeavesGently(d.sys, Commanded(d, verb, name, pid, true, percent, luck).sys)
    ensures var r := Commanded(d, verb, name, pid, true, percent, luck);
      Safe(r, entries, adopted + Adopted(d.sys, r.sys, entries))
  {
    hide Act, Acted, Lucky, IsProtected, Owed, NoneProtected, Quiet, Held;
    var r := Commanded(d, verb, name, pid, true, percent, luck);
    if name !in d.critical && (verb.Throttle? || verb.Suspend?) {
      HoldIsSafe(d, entries, adopted, if verb.Throttle? then Throttled else Suspended, name, pid, percent, luck);
    } else if name !in d.critical && pid in d.sys.machines {
      if verb.Resume? {
        ActIsSafe(d.sys, entries, adopted, pid, ForceState(Normal, percent, true), luck);
      } else {
        var t := Acted(d.sys, {pid}, ReleaseManualHold, luck);
        ActIsSafe(d.sys, entries, adopted, pid, ReleaseManualHold, luck);
        DropNormalIsSafe(t, entries, adopted, pid);
      }
      assert Adopted(d.sys, r.sys, entries) == {};
      assert adopted + {} == adopted;
    } else {
      assert Adopted(d.sys, r.sys, entries) == {};
      assert adopted + {} == adopted;
    }
  }

  lemma DropNormalIsSafe(s: System, entries: map<Pid, Entry>, adopted: set<Pid>, pid: Pid)
    requires Owed(s, entries, adopted) && NoneProtected(s) && pid in s.machines
    ensures var t := Dropped(s, {pid});
      t.machines.Keys <= s.machines.Keys &&
      (s.machines[pid].control.state.Normal? ==> Owed(t, entries, adopted) && NoneProtected(t))
  {
    hide InOrder, IsProtected;
    var t := Dropped(s, {pid});
    if s.machines[pid].control.state.Normal? {
      DropInOrder(s.machines[pid], EntryOf(entries, pid), pid in adopted, s.procs[pid]);
      DroppedIsUnprotected(s, pid);
    }
  }

  lemma DroppedIsUnprotected(s: System, pid: Pid)
    requires NoneProtected(s)
    ensures NoneProtected(Dropped(s, {pid}))
  {
  }

  /** Recovering everything ends with every machine in the normal state. */
  lemma RecoverAllIsSafe(s: System, entries: map<Pid, Entry>, adopted: set<Pid>, luck: Pid -> Luck)
    requires Owed(s, entries, adopted) && NoneProtected(s) && AllLucky(s, luck)
    requires LeavesGently(s, RecoveredAll(s, luck))
    ensures var t := RecoveredAll(s, luck);
      Owed(t, entries, adopted) && NoneProtected(t) && t.machines.Keys == s.machines.Keys &&
      forall pid :: pid in t.machines ==> t.machines[pid].control.state.Normal?
  {
    hide Act, Lucky, IsProtected, InOrder, Quiet;
    var t := RecoveredAll(s, luck);
    forall pid | pid in s.machines ensures t.machines[pid].control.state.Normal? {
      RecoverEndsNormal(s.machines[pid], Look(s.procs, pid), luck(pid));
    }
    assert CanAct(s, s.machines.Keys, ForceRecover, luck);
    SweepKeepsOwed(s, entries, adopted, s.machines.Keys, {}, ForceRecover, luck);
    SweepKeepsUnprotected(s, s.machines.Keys, {}, ForceRecover, luck);
  }

  // ---------------------------------------------------- the world outside

  datatype Outside =
    | Spawns(pid: Pid, tid: Tid, others: nat)
    | ThreadEnds(pid: Pid, tid: Tid)
    | OtherSuspends(pid: Pid, tid: Tid)
    | OtherResumes(pid: Pid, tid: Tid)
    | Exits(pid: Pid)
    | Created(pid: Pid, p: Proc)

  /** Others undo only what they did; a pid is not used again while the service holds its process. */
  predicate Possible(s: System, e: Outside) {
    match e
    case Spawns(pid, tid, others) => pid in s.procs && tid !in s.procs[pid].threads
    case ThreadEnds(pid, tid) => pid in s.procs && tid in s.procs[pid].threads
    case OtherSuspends(pid, tid) => pid in s.procs && tid in s.procs[pid].threads
    case OtherResumes(pid, tid) =>
      pid in s.procs && tid in s.procs[pid].threads && s.procs[pid].threads[tid].others > 0 &&
      s.procs[pid].threads[tid].count > 0
    case Exits(pid) => pid in s.procs
    case Created(pid, p) => pid !in s.machines && ThreadsKept(Normal, p.threads) && p.priority == p.original
  }

  /** The process after an outside step. */
  function Affected(p: Proc, e: Outside): Proc {
    match e
    case Spawns(_, tid, others) => p.(threads := p.threads[tid := Thread(others, others, false, true)])
    case ThreadEnds(_, tid) => p.(threads := p.threads - {tid})
    case OtherSuspends(_, tid) =>
      if tid !in p.threads then p else
      var t := p.threads[tid];
      p.(threads := p.threads[tid := t.(count := t.count + 1, others := t.others + 1)])
    case OtherResumes(_, tid) =>
      if tid !in p.threads || p.threads[tid].others == 0 || p.threads[tid].count == 0 then p else
      var t := p.threads[tid];
      p.(threads := p.threads[tid := t.(count := t.count - 1, others := t.others - 1)])
    case Exits(_) => p.(exited := true)
    case Created(_, q) => q
  }

  function Happened(s: System, e: Outside): System {
    s.(procs := s.procs[e.pid := Affected(Look(s.procs, e.pid), e)])
  }

  lemma ThreadsStayAsTheyAre(p: Proc, e: Outside)
    requires !e.Created?
    ensures var q := Affected(p, e);
      q.original == p.original && q.priority == p.priority && (p.exited ==> q.exited) &&
      (Balanced(p.threads) ==> Balanced(q.threads)) && (Free(p.threads) ==> Free(q.threads)) &&
      (SnapshotCaught(p.threads) ==> SnapshotCaught(q.threads))
  {
  }

  lemma AffectedInOrder(m: Option<Machine>, e: Option<Entry>, adopted: bool, p: Proc, o: Outside)
    requires InOrder(m, e, adopted, p) && !o.Created?
    ensures InOrder(m, e, adopted, Affected(p, o)) && (p.exited ==> Affected(p, o).exited)
  {
    hide Affected, Balanced, Free, SnapshotCaught;
    ThreadsStayAsTheyAre(p, o);
  }

  lemma CreatedInOrder(s: System, o: Outside)
    requires o.Created? && Possible(s, o)
    ensures o.pid !in s.machines && InOrder(None, None, false, Affected(Look(s.procs, o.pid), o))
  {
  }

  /** Whatever happens outside, everything stays in order; a process that is created is nobody's. */
  lemma OutsideIsSafe(s: System, entries: map<Pid, Entry>, adopted: set<Pid>, o: Outside)
    requires Owed(s, entries, adopted) && NoneProtected(s) && Possible(s, o) && (o.Created? ==> o.pid !in entries)
    ensures Owed(Happened(s, o), entries, if o.Created? then adopted - {o.pid} else adopted)
    ensures NoneProtected(Happened(s, o))
  {
    hide Affected, InOrder;
    if o.Created? {
      CreatedInOrder(s, o);
    } else {
      AffectedInOrder(MachineOf(s, o.pid), EntryOf(entries, o.pid), o.pid in adopted, s.procs[o.pid], o);
    }
  }

  lemma SameName(m: Machine, p: Proc, a: Action, luck: Luck)
    ensures Act(m, p, a, luck).0.name == m.name && Act(m, p, a, luck).1.exited == p.exited
  {
  }

  /** The same processes are there, and the same of them have exited. */
  predicate SameLives(a: Procs, b: Procs) {
    a.Keys == b.Keys && forall pid :: pid in a ==> a[pid].exited == b[pid].exited
  }

  /** The service neither starts nor ends processes. */
  lemma SweepSameLives(s: System, acting: set<Pid>, dropping: set<Pid>, a: Action, luck: Pid -> Luck)
    ensures SameLives(s.procs, Swept(s, acting, dropping, a, luck).procs)
  {
    hide Act;
    forall pid | pid in s.machines && pid in s.procs
      ensures Act(s.machines[pid], s.procs[pid], a, luck(pid)).1.exited == s.procs[pid].exited
    {
      SameName(s.machines[pid], s.procs[pid], a, luck(pid));
    }
  }

  lemma ReloadSameLives(d: Service, critical: set<string>, batch: set<string>, config: Config, names: set<string>,
                        luck: Pid -> Luck)
    ensures var r := Reloaded(d, critical, batch, config, names, luck);
      SameLives(d.sys.procs, r.sys.procs) && r.sys.machines.Keys <= d.sys.machines.Keys && r.critical == critical &&
      r.batch == batch && r.sys.protectedNames == names
  {
    hide Act, Swept, SameLives, NowProtected, Stale;
    var s := Configured(d.sys, config, luck);
    var t := s.(protectedNames := names);
    SweepSameLives(d.sys.(config := config), d.sys.machines.Keys, {}, SetConfig(config), luck);
    SweepSameLives(t, NowProtected(t), NowProtected(t), ForceRecover, luck);
    var e := Service(Protecting(s, names, luck), d.adhoc, critical, batch);
    SweepSameLives(e.sys, Stale(e), Stale(e), ForceRecover, luck);
    SameLivesChain(d.sys.procs, s.procs, e.sys.procs);
    SameLivesChain(d.sys.procs, e.sys.procs, StaleDropped(e, luck).sys.procs);
  }

  lemma SameLivesChain(a: Procs, b: Procs, c: Procs)
    requires SameLives(a, b) && SameLives(b, c)
    ensures SameLives(a, c)
  {
  }

  lemma CommandSameLives(d: Service, verb: Verb, name: string, pid: Pid, percent: real, luck: Pid -> Luck)
    ensures var r := Commanded(d, verb, name, pid, true, percent, luck);
      SameLives(d.sys.procs, r.sys.procs) && r.critical == d.critical && r.batch == d.batch &&
      r.sys.protectedNames == d.sys.protectedNames
  {
    hide Act, SameLives, IsProtected;
    var a := if verb.Throttle? then ForceState(Throttled, percent, true)
      else if verb.Suspend? then ForceState(Suspended, percent, true)
      else if verb.Resume? then ForceState(Normal, percent, true) else ReleaseManualHold;
    SweepSameLives(d.sys, {pid}, {}, a, luck);
    SweepSameLives(d.sys, {}, {}, a, luck);
    SweepNone(d.sys, a, luck);
    SweepSameLives(Added(d.sys, name, pid, true), {pid}, {}, a, luck);
  }

  // ------------------------------------------------------------- the code

  /** A process found by name or pid in the snapshot; `handle` says whether it can be opened. */
  datatype Target = Target(name: string, pid: Pid, handle: bool)

  /** The command for each target in turn. */
  function CommandedAll(d: Service, verb: Verb, targets: seq<Target>, percent: real,
                        luck: nat -> Pid -> Luck): Service
  {
    if targets == [] then d
    else
      var last := |targets| - 1;
      Commanded(CommandedAll(d, verb, targets[..last], percent, luck), verb, targets[last].name, targets[last].pid,
                targets[last].handle, percent, luck(last))
  }

  /** None of the targets is refused when its turn comes. */
  predicate AllAccepted(d: Service, verb: Verb, targets: seq<Target>, percent: real, luck: nat -> Pid -> Luck) {
    targets == [] ||
    var last := |targets| - 1;
    AllAccepted(d, verb, targets[..last], percent, luck) &&
    Accepted(CommandedAll(d, verb, targets[..last], percent, luck), verb, targets[last].name, targets[last].pid)
  }

  /** Nothing about this process differs, nor what decides on commands for it. */
  predicate Alike(d: Service, e: Service, pid: Pid) {
    MachineOf(d.sys, pid) == MachineOf(e.sys, pid) && (pid in d.adhoc <==> pid in e.adhoc) &&
    (pid in d.sys.procs <==> pid in e.sys.procs) && Look(d.sys.procs, pid) == Look(e.sys.procs, pid) &&
    d.critical == e.critical && d.sys.self == e.sys.self && d.sys.protectedNames == e.sys.protectedNames &&
    d.sys.config == e.sys.config
  }

  lemma ActAlike(d: Service, e: Service, target: Pid, a: Action, luck: Pid -> Luck, pid: Pid)
    requires Alike(d, e, pid)
    ensures var c, f := d.(sys := Acted(d.sys, {target}, a, luck)), e.(sys := Acted(e.sys, {target}, a, luck));
      Alike(c, if pid == target then f else e, pid)
  {
    hide Act;
  }

  lemma AddAlike(d: Service, e: Service, t: Target, pid: Pid)
    requires Alike(d, e, pid)
    ensures var c := d.(sys := Added(d.sys, t.name, t.pid, t.handle));
      var f := e.(sys := Added(e.sys, t.name, t.pid, t.handle));
      Alike(c, if pid == t.pid then f else e, pid)
  {
  }

  lemma HoldAlike(d: Service, e: Service, to: State, t: Target, percent: real, luck: Pid -> Luck, pid: Pid)
    requires Alike(d, e, pid)
    ensures Alike(Held(d, to, t.name, t.pid, t.handle, percent, luck),
                  if pid == t.pid then Held(e, to, t.name, t.pid, t.handle, percent, luck) else e, pid)
  {
    hide Acted, Added;
    AddAlike(d, e, t, pid);
    var c, f := d.(sys := Added(d.sys, t.name, t.pid, t.handle)), e.(sys := Added(e.sys, t.name, t.pid, t.handle));
    ActAlike(c, if pid == t.pid then f else e, t.pid, ForceState(to, percent, true), luck, pid);
  }

  lemma LetGoAlike(d: Service, e: Service, target: Pid, pid: Pid)
    requires Alike(d, e, pid) && target in d.sys.machines && (pid == target ==> target in e.sys.machines)
    ensures Alike(LetGo(d, target), if pid == target then LetGo(e, target) else e, pid)
  {
  }

  /** A command is about its process only. */
  lemma CommandIsLocal(d: Service, e: Service, verb: Verb, t: Target, percent: real, luck: Pid -> Luck, pid: Pid)
    requires Alike(d, e, pid)
    ensures pid == t.pid ==> (Accepted(d, verb, t.name, pid) <==> Accepted(e, verb, t.name, pid))
    ensures Alike(Commanded(d, verb, t.name, t.pid, t.handle, percent, luck),
                  if pid == t.pid then Commanded(e, verb, t.name, pid, t.handle, percent, luck) else e, pid)
  {
    assert pid == t.pid ==> (pid in d.sys.machines <==> pid in e.sys.machines) && d.critical == e.critical;
    hide Held, LetGo, Acted;
    HoldAlike(d, e, if verb.Throttle? then Throttled else Suspended, t, percent, luck, pid);
    ActAlike(d, e, t.pid, ForceState(Normal, percent, true), luck, pid);
    ActAlike(d, e, t.pid, ReleaseManualHold, luck, pid);
    if t.pid in d.sys.machines {
      assert t.pid in Acted(d.sys, {t.pid}, ReleaseManualHold, luck).machines;
      var c := d.(sys := Acted(d.sys, {t.pid}, ReleaseManualHold, luck));
      var f := e.(sys := Acted(e.sys, {t.pid}, ReleaseManualHold, luck));
      LetGoAlike(c, if pid == t.pid then f else e, t.pid, pid);
    }
  }

  ghost predicate OneEach(targets: seq<Target>) {
    forall i, j :: 0 <= i < j < |targets| ==> targets[i].pid != targets[j].pid
  }

  /** What the command does to this target on its own. */
  function Alone(d: Service, verb: Verb, t: Target, percent: real, luck: Pid -> Luck): Service {
    Commanded(d, verb, t.name, t.pid, t.handle, percent, luck)
  }

  lemma {:induction false} OthersAreUntouched(d: Service, verb: Verb, targets: seq<Target>, percent: real,
                                              luck: nat -> Pid -> Luck, pid: Pid)
    requires forall i :: 0 <= i < |targets| ==> targets[i].pid != pid
    ensures Alike(CommandedAll(d, verb, targets, percent, luck), d, pid)
  {
    assert Alike(d, d, pid);
    hide Alike, Accepted, Commanded;
    if targets != [] {
      var n := |targets| - 1;
      OthersAreUntouched(d, verb, targets[..n], percent, luck, pid);
      CommandIsLocal(CommandedAll(d, verb, targets[..n], percent, luck), d, verb, targets[n], percent, luck(n), pid);
    }
  }

  /**
   A command for several processes does to each what it would do to it alone, and nothing to any other
   (`OthersAreUntouched`); it is accepted as a whole exactly if it would be for each.
   */
  lemma {:induction false} CommandsExactly(d: Service, verb: Verb, targets: seq<Target>, percent: real,
                                           luck: nat -> Pid -> Luck)
    requires OneEach(targets)
    ensures forall i :: 0 <= i < |targets| ==>
      Alike(CommandedAll(d, verb, targets, percent, luck), Alone(d, verb, targets[i], percent, luck(i)), targets[i].pid)
    ensures AllAccepted(d, verb, targets, percent, luck) <==>
      forall i :: 0 <= i < |targets| ==> Accepted(d, verb, targets[i].name, targets[i].pid)
  {
    hide Alike, Accepted, Commanded;
    if targets != [] {
      var n := |targets| - 1;
      var init, last := targets[..n], targets[n];
      var s, r := CommandedAll(d, verb, init, percent, luck), CommandedAll(d, verb, targets, percent, luck);
      CommandsExactly(d, verb, init, percent, luck);
      OthersAreUntouched(d, verb, init, percent, luck, last.pid);
      CommandIsLocal(s, d, verb, last, percent, luck(n), last.pid);
      forall i | 0 <= i < n ensures Alike(r, Alone(d, verb, targets[i], percent, luck(i)), targets[i].pid) {
        assert init[i] == targets[i];
        CommandIsLocal(s, Alone(d, verb, init[i], percent, luck(i)), verb, last, percent, luck(n), init[i].pid);
      }
      assert (forall i :: 0 <= i < n ==> Accepted(d, verb, targets[i].name, targets[i].pid)) <==>
        (forall i :: 0 <= i < n ==> Accepted(d, verb, init[i].name, init[i].pid));
    }
  }

  lemma SweepOne(s: System, gone: set<Pid>, pid: Pid, luck: Pid -> Luck)
    requires pid in s.machines && pid !in gone
    ensures Dropped(Acted(Swept(s, gone, gone, ForceRecover, luck), {pid}, ForceRecover, luck), {pid}) ==
            Swept(s, gone + {pid}, gone + {pid}, ForceRecover, luck)
  {
    SweepAct(s, gone, gone, pid, ForceRecover, luck);
    SweepDrop(s, gone + {pid}, gone, pid, ForceRecover, luck);
  }

  lemma AlreadyManaged(s: System, name: string, pid: Pid, handle: bool)
    ensures pid in s.machines ==> Added(s, name, pid, handle) == s
  {
  }

  class DaemonService {
    const manager: ActuatorManager
    var adhoc: set<Pid>
    var critical: set<string>
    var batch: set<string>

    function Abs(): Service
      reads this, manager, manager.os, manager.machines.Values
    {
      Service(manager.Abs(), adhoc, critical, batch)
    }

    constructor (manager: ActuatorManager, critical: set<string>, batch: set<string>)
      ensures this.manager == manager && Abs() == Service(manager.Abs(), {}, critical, batch)
    {
      this.manager, this.critical, this.batch := manager, critical, batch;
      adhoc := {};
    }

    /** The end of a poll: update every machine, then forget ad-hoc processes that are no longer managed. */
    method PollMachines(percent: real, luck: Pid -> Luck) returns (changed: bool)
      requires manager.Valid()
      modifies this`adhoc, manager, manager.os, manager.machines.Values
      ensures manager.Valid() && Abs() == Polled(old(Abs()), percent, luck)
      ensures changed == AnyMoved(old(Abs()).sys, Abs().sys, old(Abs()).sys.machines.Keys)
    {
      hide UpdatedAll, AnyMoved;
      changed := manager.UpdateAll(percent, luck);
      var todo := adhoc;
      while todo != {}
        modifies this`adhoc
        invariant todo <= adhoc && adhoc - todo <= manager.machines.Keys
        invariant adhoc <= old(adhoc) && old(adhoc) * manager.machines.Keys <= adhoc
      {
        var pid :| pid in todo;
        if pid !in manager.machines { adhoc := adhoc - {pid}; }
        todo := todo - {pid};
      }
    }

    /** Names removed from the configuration: collect the processes, then recover and remove each. */
    method DropStale(luck: Pid -> Luck)
      requires manager.Valid()
      modifies manager, manager.os, manager.machines.Values
      ensures manager.Valid() && Abs() == StaleDropped(old(Abs()), luck)
      ensures manager.machines.Values <= old(manager.machines.Values)
    {
      hide Act, Acted, Swept, Dropped;
      var todo := set pid | pid in manager.machines && manager.machines[pid].name !in batch && pid !in adhoc;
      ghost var s, gone := manager.Abs(), {};
      assert todo == Stale(Abs());
      SweepNone(s, ForceRecover, luck);
      while todo != {}
        invariant manager.Valid() && manager.Abs() == Swept(s, gone, gone, ForceRecover, luck)
        invariant gone + todo == Stale(old(Abs())) && gone !! todo
        invariant manager.machines.Values <= old(manager.machines.Values)
      {
        var pid :| pid in todo;
        SweepOne(s, gone, pid, luck);
        var _ := manager.Tell(pid, ForceRecover, luck);
        manager.RemoveBatchProcess(pid);
        gone := gone + {pid};
        todo := todo - {pid};
      }
      assert gone == Stale(old(Abs()));
    }

    method ApplyConfig(critical: set<string>, batch: set<string>, config: Config, names: set<string>, luck: Pid -> Luck)
      requires manager.Valid()
      modifies this, manager, manager.os, manager.machines.Values
      ensures manager.Valid() && Abs() == Reloaded(old(Abs()), critical, batch, config, names, luck)
    {
      hide Configured, Protecting, Stale, Swept;
      ghost var s := manager.Abs();
      this.critical, this.batch := critical, batch;
      manager.SetConfigAll(config, luck);
      assert manager.Abs() == Configured(s, config, luck);
      manager.SetProtectedProcessNames(names, luck);
      assert Abs() == Service(Protecting(Configured(s, config, luck), names, luck), adhoc, critical, batch);
      DropStale(luck);
    }

    method Hold(to: State, t: Target, percent: real, luck: Pid -> Luck) returns (ok: bool)
      requires manager.Valid()
      modifies this`adhoc, manager, manager.os, manager.machines.Values
      ensures manager.Valid() && Abs() == Held(old(Abs()), to, t.name, t.pid, t.handle, percent, luck)
      ensures ok == (t.pid in old(manager.machines) || !IsProtected(old(Abs()).sys, t.name, t.pid))
      ensures fresh(manager.machines.Values - old(manager.machines.Values))
    {
      hide Act, Acted, Added, IsProtected;
      ghost var s := manager.Abs();
      AlreadyManaged(s, t.name, t.pid, t.handle);
      if t.pid !in manager.machines {
        ok := manager.AddBatchProcess(t.name, t.pid, t.handle);
        if !ok { return; }
        adhoc := adhoc + {t.pid};
      }
      assert manager.Abs() == Added(s, t.name, t.pid, t.handle);
      var _ := manager.Tell(t.pid, ForceState(to, percent, true), luck);
      ok := true;
    }

    method DropReleased(pid: Pid)
      requires manager.Valid() && pid in manager.machines
      modifies this`adhoc, manager
      ensures manager.Valid() && Abs() == LetGo(old(Abs()), pid) &&
        manager.machines.Values <= old(manager.machines.Values)
    {
      if pid in adhoc && manager.machines[pid].state.Normal? {
        manager.RemoveBatchProcess(pid);
        adhoc := adhoc - {pid};
      }
    }

    method HandleTarget(verb: Verb, t: Target, percent: real, luck: Pid -> Luck) returns (ok: bool)
      requires manager.Valid()
      modifies this`adhoc, manager, manager.os, manager.machines.Values
      ensures manager.Valid() && Abs() == Commanded(old(Abs()), verb, t.name, t.pid, t.handle, percent, luck)
      ensures ok == Accepted(old(Abs()), verb, t.name, t.pid)
      ensures fresh(manager.machines.Values - old(manager.machines.Values))
    {
      hide Act, Acted, Held, IsProtected, LetGo;
      if t.name in critical { return false; }
      if verb.Throttle? || verb.Suspend? {
        ok := Hold(if verb.Throttle? then Throttled else Suspended, t, percent, luck);
        return;
      }
      if t.pid !in manager.machines { return false; }
      var _ := manager.Tell(t.pid, if verb.Resume? then ForceState(Normal, percent, true) else ReleaseManualHold, luck);
      if verb.Release? { DropReleased(t.pid); }
      ok := true;
    }

    /**
     Every process that matches the command, one after the other; the reply says whether there was one
     and all were accepted.
     */
    method HandleCommand(verb: Verb, targets: seq<Target>, percent: real, luck: nat -> Pid -> Luck) returns (ok: bool)
      requires manager.Valid()
      modifies this`adhoc, manager, manager.os, manager.machines.Values
      ensures manager.Valid() && Abs() == CommandedAll(old(Abs()), verb, targets, percent, luck)
      ensures ok == (targets != [] && AllAccepted(old(Abs()), verb, targets, percent, luck))
    {
      hide Commanded, Accepted;
      ok := targets != [];
      assert targets[..0] == [];
      for i := 0 to |targets|
        invariant manager.Valid() && fresh(manager.machines.Values - old(manager.machines.Values))
        invariant Abs() == CommandedAll(old(Abs()), verb, targets[..i], percent, luck)
        invariant ok == (targets != [] && AllAccepted(old(Abs()), verb, targets[..i], percent, luck))
      {
        assert targets[..i + 1][..i] == targets[..i];
        var accepted := HandleTarget(verb, targets[i], percent, luck(i));
        ok := ok && accepted;
      }
      assert targets[..|targets|] == targets;
    }
  }
}
