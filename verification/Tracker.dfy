/**
 The threshold tracker that writes threshold_event lines (ThresholdTracker.h) and the part of
 Daemon::Poll that runs it beside the state machines: it only reports, they act, and the two agree.
 */
module Tracker {
  import opened OsControl
  import opened StateMachine
  import opened Actuators
  import opened Daemon

  datatype ThresholdType = High | Critical | Low
  datatype Fired = Fired(kind: ThresholdType, samples: nat)

  /** The streaks that have just reached their length. */
  function FiredAt(c: Counters, config: Config): seq<Fired> {
    (if c.high == config.throttleSamples then [Fired(High, c.high)] else []) +
    (if c.critical == config.escalateSamples then [Fired(Critical, c.critical)] else []) +
    (if c.low == config.recoverSamples then [Fired(Low, c.low)] else [])
  }

  class ThresholdTracker {
    var high: nat
    var critical: nat
    var low: nat

    function Abs(): Counters
      reads this
    {
      Counters(high, critical, low)
    }

    constructor ()
      ensures Abs() == ZERO
    {
      high, critical, low := 0, 0, 0;
    }

    method Add(percent: real, config: Config) returns (out: seq<Fired>)
      modifies this
      ensures Abs() == Count(old(Abs()), config, percent) && out == FiredAt(Abs(), config)
    {
      out := [];
      high := if percent >= config.throttlePercent then high + 1 else 0;
      critical := if percent >= config.escalatePercent then critical + 1 else 0;
      low := if percent < config.recoverPercent then low + 1 else 0;
      if high == config.throttleSamples { out := out + [Fired(High, high)]; }
      if critical == config.escalateSamples { out := out + [Fired(Critical, critical)]; }
      if low == config.recoverSamples { out := out + [Fired(Low, low)]; }
    }

    method Reset()
      modifies this
      ensures Abs() == ZERO
    {
      high, critical, low := 0, 0, 0;
    }
  }

  // ------------------------------------------------------ what is reported

  /** A reading and the thresholds it is compared with. */
  datatype Reading = Reading(percent: real, config: Config)

  /** The counters after these readings since the last reset. */
  function Counted(readings: seq<Reading>): Counters {
    if readings == [] then ZERO
    else
      var last := readings[|readings| - 1];
      Count(Counted(readings[..|readings| - 1]), last.config, last.percent)
  }

  predicate Meets(r: Reading, kind: ThresholdType) {
    match kind
    case High => r.percent >= r.config.throttlePercent
    case Critical => r.percent >= r.config.escalatePercent
    case Low => r.percent < r.config.recoverPercent
  }

  function Needed(config: Config, kind: ThresholdType): int {
    match kind
    case High => config.throttleSamples
    case Critical => config.escalateSamples
    case Low => config.recoverSamples
  }

  /** The last n readings meet the threshold and the one before them, if any, does not. */
  ghost predicate StreakOf(readings: seq<Reading>, kind: ThresholdType, n: nat) {
    n <= |readings| && (forall i :: |readings| - n <= i < |readings| ==> Meets(readings[i], kind)) &&
    (n < |readings| ==> !Meets(readings[|readings| - n - 1], kind))
  }

  lemma {:induction false} CountsOneStreak(readings: seq<Reading>, kind: ThresholdType, n: nat)
    ensures StreakOf(readings, kind, n) <==>
      n == match kind case High => Counted(readings).high case Critical => Counted(readings).critical
           case Low => Counted(readings).low
  {
    if readings != [] {
      var last := |readings| - 1;
      if Meets(readings[last], kind) {
        if n > 0 {
          CountsOneStreak(readings[..last], kind, n - 1);
          if StreakOf(readings, kind, n) { assert StreakOf(readings[..last], kind, n - 1); }
        }
      }
    }
  }

  /**
   A threshold is reported on a reading, once and in the order high, critical, low, exactly if a streak
   just reached its length with it, and the length is what is reported.
   */
  lemma FiresExactly(readings: seq<Reading>, config: Config, kind: ThresholdType, n: nat)
    requires readings != [] && readings[|readings| - 1].config == config
    ensures var fired := FiredAt(Counted(readings), config);
      (Fired(kind, n) in fired <==> n == Needed(config, kind) && StreakOf(readings, kind, n)) &&
      forall i, j :: 0 <= i < j < |fired| ==>
        fired[i].kind != fired[j].kind && !fired[i].kind.Low? && !fired[j].kind.High?
  {
    CountsOneStreak(readings, kind, n);
  }

  // ------------------------------------------------------ tracker and actors

  /** One poll: the pressure, the thresholds in effect, and the managed processes found to have exited. */
  datatype Poll = Poll(percent: real, config: Config, exited: set<Pid>)

  datatype Joint = Joint(tracker: Counters, machines: map<Pid, Control>, fired: seq<Fired>)

  function After(c: Control, poll: Poll): Control {
    Sample(c.(config := poll.config), poll.percent)
  }

  predicate Changed(j: Joint, poll: Poll) {
    exists pid :: pid in j.machines && pid !in poll.exited &&
      After(j.machines[pid], poll).state != j.machines[pid].state
  }

  /** The tracker counts, then every machine does; if one of them changes state the tracker starts again. */
  function Polled(j: Joint, poll: Poll): Joint {
    var counted := Count(j.tracker, poll.config, poll.percent);
    Joint(if Changed(j, poll) then ZERO else counted,
          map pid | pid in j.machines && pid !in poll.exited :: After(j.machines[pid], poll),
          FiredAt(counted, poll.config))
  }

  /** The machines present from the start, and the polls so far. */
  function Exec(pids: set<Pid>, config: Config, polls: seq<Poll>): Joint {
    if polls == [] then Joint(ZERO, map pid | pid in pids :: Start(config), [])
    else Polled(Exec(pids, config, polls[..|polls| - 1]), polls[|polls| - 1])
  }

  /** Some machine is in another state after the last poll than before it. */
  ghost predicate StatesMoved(before: Joint, after: Joint) {
    exists pid :: pid in before.machines && pid in after.machines &&
      before.machines[pid].state != after.machines[pid].state
  }

  /** The readings since a poll last changed a state. */
  ghost function SinceChange(pids: set<Pid>, config: Config, polls: seq<Poll>): seq<Reading> {
    if polls == [] then []
    else
      var init, poll := polls[..|polls| - 1], polls[|polls| - 1];
      if StatesMoved(Exec(pids, config, init), Exec(pids, config, polls)) then []
      else SinceChange(pids, config, init) + [Reading(poll.percent, poll.config)]
  }

  lemma {:induction false} CountsSinceChange(pids: set<Pid>, config: Config, polls: seq<Poll>)
    ensures Exec(pids, config, polls).tracker == Counted(SinceChange(pids, config, polls))
  {
    hide Count, FiredAt, After;
    if polls != [] {
      var init, poll := polls[..|polls| - 1], polls[|polls| - 1];
      CountsSinceChange(pids, config, init);
      var since, reading := SinceChange(pids, config, init), Reading(poll.percent, poll.config);
      assert (since + [reading])[..|since|] == since;
      var j := Exec(pids, config, init);
      assert Changed(j, poll) <==> StatesMoved(j, Exec(pids, config, polls));
    }
  }

  /** In every run a poll reports exactly the streaks, counted since a state last changed, that it completes. */
  lemma ReportsExactly(pids: set<Pid>, config: Config, polls: seq<Poll>, poll: Poll, kind: ThresholdType, n: nat)
    ensures Fired(kind, n) in Exec(pids, config, polls + [poll]).fired <==>
      n == Needed(poll.config, kind) &&
      StreakOf(SinceChange(pids, config, polls) + [Reading(poll.percent, poll.config)], kind, n)
  {
    hide Count, FiredAt, After, StreakOf, SinceChange;
    var all, since, reading := polls + [poll], SinceChange(pids, config, polls), Reading(poll.percent, poll.config);
    assert all[..|polls|] == polls && (since + [reading])[..|since|] == since;
    CountsSinceChange(pids, config, polls);
    FiresExactly(since + [reading], poll.config, kind, n);
  }

  /** Thresholds may move, sample counts are fixed and at least 1, and recovery stays below the rest. */
  ghost predicate Usable(config: Config, polls: seq<Poll>) {
    config.throttleSamples >= 1 && config.escalateSamples >= 1 && config.recoverSamples >= 1 &&
    forall i :: 0 <= i < |polls| ==> SameCounts(polls[i].config, config) && Banded(polls[i].config)
  }

  /** No streak that would move the machine has reached its length. */
  predicate Settled(config: Config, c: Control) {
    match c.state
    case Normal => c.counters.high < config.throttleSamples
    case Throttled => c.counters.critical < config.escalateSamples && c.counters.low < config.recoverSamples
    case Suspended => c.counters.low < config.recoverSamples
  }

  predicate InStep(config: Config, j: Joint, pid: Pid, state: State)
    requires pid in j.machines
  {
    var c := j.machines[pid];
    c.counters == j.tracker && c.state == state && !c.hold && Settled(config, c)
  }

  /** All machines are in one state and count what the tracker counts. */
  predicate Lockstep(config: Config, j: Joint, state: State) {
    forall pid :: pid in j.machines ==> InStep(config, j, pid, state)
  }

  /** The event that goes with a change of state, as the original names them. */
  predicate Matches(from: State, to: State, kind: ThresholdType) {
    match kind
    case High => from.Normal? && to.Throttled?
    case Critical => from.Throttled? && to.Suspended?
    case Low => !from.Normal? && to.Normal?
  }

  /** From each state, the event that matters is reported exactly when the machine makes the move. */
  lemma EventIffMove(config: Config, j: Joint, state: State, poll: Poll, pid: Pid)
    requires Lockstep(config, j, state) && SameCounts(poll.config, config) && Banded(poll.config)
    requires config.throttleSamples >= 1 && config.escalateSamples >= 1 && config.recoverSamples >= 1
    requires Exclusive(j.tracker) && pid in Polled(j, poll).machines
    ensures var to := Polled(j, poll).machines[pid].state;
      var fired := Polled(j, poll).fired;
      (Matches(state, to, High) <==> state.Normal? && Fired(High, config.throttleSamples) in fired) &&
      (Matches(state, to, Critical) <==> state.Throttled? && Fired(Critical, config.escalateSamples) in fired) &&
      (Matches(state, to, Low) <==> !state.Normal? && Fired(Low, config.recoverSamples) in fired) &&
      (to != state <==> Matches(state, to, High) || Matches(state, to, Critical) || Matches(state, to, Low))
  {
    assert InStep(config, j, pid, state);
  }

  lemma StartsInLockstep(pids: set<Pid>, config: Config)
    requires Usable(config, [])
    ensures Lockstep(config, Exec(pids, config, []), Normal) && Exclusive(Exec(pids, config, []).tracker)
  {
  }

  lemma PollKeepsLockstep(config: Config, j: Joint, state: State, poll: Poll)
    requires Lockstep(config, j, state) && Exclusive(j.tracker)
    requires SameCounts(poll.config, config) && Banded(poll.config)
    requires config.throttleSamples >= 1 && config.escalateSamples >= 1 && config.recoverSamples >= 1
    ensures Lockstep(config, Polled(j, poll), Decision(poll.config, state, Count(j.tracker, poll.config, poll.percent)))
    ensures Exclusive(Polled(j, poll).tracker)
  {
    hide FiredAt;
    var to := Decision(poll.config, state, Count(j.tracker, poll.config, poll.percent));
    forall pid | pid in Polled(j, poll).machines ensures InStep(config, Polled(j, poll), pid, to) {
      assert InStep(config, j, pid, state);
    }
  }

  /** After every poll the tracker's three counters are those of every machine present from the start. */
  lemma {:induction false} TrackerFollowsMachines(pids: set<Pid>, config: Config, polls: seq<Poll>)
    returns (state: State)
    requires Usable(config, polls)
    ensures Lockstep(config, Exec(pids, config, polls), state) && Exclusive(Exec(pids, config, polls).tracker)
  {
    hide Polled, Lockstep, Decision, Count, Exclusive;
    if polls == [] {
      state := Normal;
      StartsInLockstep(pids, config);
    } else {
      var init, poll := polls[..|polls| - 1], polls[|polls| - 1];
      assert forall i :: 0 <= i < |init| ==> init[i] == polls[i];
      var before := TrackerFollowsMachines(pids, config, init);
      var j := Exec(pids, config, init);
      PollKeepsLockstep(config, j, before, poll);
      state := Decision(poll.config, before, Count(j.tracker, poll.config, poll.percent));
    }
  }

  /**
   Reporter and actor agree at every poll of every run: each automatic throttle, suspension and
   recovery coincides with the High, Critical or Low event of that poll, and the event that matters
   in the machine's state is never reported without it.
   */
  lemma ActionsMatchEvents(pids: set<Pid>, config: Config, polls: seq<Poll>, poll: Poll, pid: Pid)
    requires Usable(config, polls + [poll]) && pid in Exec(pids, config, polls + [poll]).machines
    ensures var before, after := Exec(pids, config, polls), Exec(pids, config, polls + [poll]);
      pid in before.machines && before.machines[pid].counters == before.tracker &&
      after.machines[pid].counters == after.tracker &&
      var from, to := before.machines[pid].state, after.machines[pid].state;
      (Matches(from, to, High) <==> from.Normal? && Fired(High, config.throttleSamples) in after.fired) &&
      (Matches(from, to, Critical) <==> from.Throttled? && Fired(Critical, config.escalateSamples) in after.fired) &&
      (Matches(from, to, Low) <==> !from.Normal? && Fired(Low, config.recoverSamples) in after.fired) &&
      (to != from <==> Matches(from, to, High) || Matches(from, to, Critical) || Matches(from, to, Low))
  {
    var all := polls + [poll];
    assert all[..|all| - 1] == polls && all[|all| - 1] == poll;
    assert forall i :: 0 <= i < |polls| ==> polls[i] == all[i];
    var state := TrackerFollowsMachines(pids, config, polls);
    var j := Exec(pids, config, polls);
    assert InStep(config, j, pid, state);
    EventIffMove(config, j, state, poll, pid);
    assert InStep(config, Polled(j, poll), pid,
      Decision(poll.config, state, Count(j.tracker, poll.config, poll.percent)));
  }

  // ------------------------------------------------------------- the code

  /** The tracker and the machines of the service, and what was reported last. */
  function JointOf(tracker: Counters, s: System, fired: seq<Fired>): Joint {
    Joint(tracker, map pid | pid in s.machines :: s.machines[pid].control, fired)
  }

  /** The poll of the service is that of the joint model, once the thresholds are set. */
  lemma PollIsJoint(tracker: Counters, d: Service, fired: seq<Fired>, percent: real, config: Config, luck: Pid -> Luck)
    requires forall pid :: pid in d.sys.machines ==> d.sys.machines[pid].control.config == config
    ensures var r := Daemon.Polled(d, percent, luck).sys;
      var counted := Count(tracker, config, percent);
      JointOf(if AnyMoved(d.sys, r, d.sys.machines.Keys) then ZERO else counted, r, FiredAt(counted, config)) ==
      Polled(JointOf(tracker, d.sys, fired), Poll(percent, config, Exited(d.sys)))
  {
    hide Sample, FiredAt, Count, UpdatedAll;
    var j, poll := JointOf(tracker, d.sys, fired), Poll(percent, config, Exited(d.sys));
    var r := Daemon.Polled(d, percent, luck).sys;
    PollForgetsGone(d, percent, luck);
    forall pid | pid in r.machines
      ensures pid in j.machines && pid !in poll.exited && r.machines[pid].control == After(j.machines[pid], poll)
    {
      assert d.sys.machines[pid].control.(config := config) == d.sys.machines[pid].control;
    }
    assert Polled(j, poll).machines == JointOf(tracker, r, fired).machines;
    assert AnyMoved(d.sys, r, d.sys.machines.Keys) <==> Changed(j, poll);
  }

  lemma ConfiguredControls(s: System, config: Config, luck: Pid -> Luck)
    ensures var t := Configured(s, config, luck);
      t.machines.Keys == s.machines.Keys && Exited(t) == Exited(s) &&
      forall pid :: pid in s.machines ==> t.machines[pid].control == s.machines[pid].control.(config := config)
  {
    ConfigureTouchesNothing(s, config, luck);
  }

  /** Setting the thresholds first makes no difference: each machine counts by those of the poll. */
  lemma ConfigureIsJoint(tracker: Counters, s: System, fired: seq<Fired>, percent: real, config: Config,
                         luck: Pid -> Luck)
    ensures var t := Configured(s, config, luck);
      Exited(t) == Exited(s) && (forall pid :: pid in t.machines ==> t.machines[pid].control.config == config) &&
      Polled(JointOf(tracker, t, fired), Poll(percent, config, Exited(t))) ==
      Polled(JointOf(tracker, s, fired), Poll(percent, config, Exited(s)))
  {
    hide Configured, Sample, FiredAt, Count, Exited;
    ConfiguredControls(s, config, luck);
    var t, poll := Configured(s, config, luck), Poll(percent, config, Exited(s));
    var a, b := JointOf(tracker, t, fired), JointOf(tracker, s, fired);
    assert forall pid :: pid in a.machines ==> After(a.machines[pid], poll) == After(b.machines[pid], poll);
    assert Changed(a, poll) <==> Changed(b, poll);
    assert Polled(a, poll).machines == Polled(b, poll).machines;
  }

  /** Reports, updates all machines, and lets the tracker start again after a change. */
  method ReportAndUpdate(tracker: ThresholdTracker, service: DaemonService, percent: real, config: Config,
                         luck: Pid -> Luck)
    returns (fired: seq<Fired>)
    requires service.manager.Valid()
    modifies tracker, service`adhoc, service.manager, service.manager.os, service.manager.machines.Values
    ensures service.manager.Valid()
    ensures var before, counted := old(service.Abs()), Count(old(tracker.Abs()), config, percent);
      service.Abs() == Daemon.Polled(before, percent, luck) && fired == FiredAt(counted, config) &&
      tracker.Abs() ==
      if AnyMoved(before.sys, service.Abs().sys, before.sys.machines.Keys) then ZERO else counted
  {
    hide Daemon.Polled, AnyMoved, FiredAt, Count;
    fired := tracker.Add(percent, config);
    var changed := service.PollMachines(percent, luck);
    if changed { tracker.Reset(); }
  }

  /** A poll from the thresholds on; `moved` says whether they have changed since the last one. */
  method PollAndReport(tracker: ThresholdTracker, service: DaemonService, moved: bool, percent: real, config: Config,
                       luck: Pid -> Luck)
    returns (fired: seq<Fired>)
    requires service.manager.Valid()
    requires var s := service.Abs().sys;
      !moved ==> forall pid :: pid in s.machines ==> s.machines[pid].control.config == config
    modifies tracker, service`adhoc, service.manager, service.manager.os, service.manager.machines.Values
    ensures service.manager.Valid()
    ensures var s := old(service.Abs()).sys;
      JointOf(tracker.Abs(), service.Abs().sys, fired) ==
      Polled(JointOf(old(tracker.Abs()), s, []), Poll(percent, config, Exited(s)))
  {
    hide Configured, Polled, Daemon.Polled, AnyMoved, FiredAt, Count, Exited, JointOf;
    ghost var s, counters := service.Abs().sys, tracker.Abs();
    ConfigureIsJoint(counters, s, [], percent, config, luck);
    if moved { service.manager.SetConfigAll(config, luck); }
    ghost var d := service.Abs();
    assert d.sys == if moved then Configured(s, config, luck) else s;
    PollIsJoint(counters, d, [], percent, config, luck);
    fired := ReportAndUpdate(tracker, service, percent, config, luck);
  }
}
