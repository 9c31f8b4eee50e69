/**
 The state machine of one managed batch process (StateMachine.cpp): when it throttles, suspends and
 recovers, and what it does to the process on the way.
 */
module StateMachine {
  import opened OsControl
  import opened Samples

  datatype State = Normal | Throttled | Suspended

  datatype Config = Config(throttlePercent: real, throttleSamples: int, escalatePercent: real, escalateSamples: int,
                           recoverPercent: real, recoverSamples: int)

  /** How many samples in a row were high, critical and low. */
  datatype Counters = Counters(high: nat, critical: nat, low: nat)

  const ZERO := Counters(0, 0, 0)

  datatype Control = Control(config: Config, state: State, hold: bool, counters: Counters)

  function Count(c: Counters, config: Config, percent: real): Counters {
    Counters(if percent >= config.throttlePercent then c.high + 1 else 0,
             if percent >= config.escalatePercent then c.critical + 1 else 0,
             if percent < config.recoverPercent then c.low + 1 else 0)
  }

  /** Where the counters take the machine; at most one transition for a sample. */
  function Decision(config: Config, state: State, c: Counters): State {
    if state.Normal? && c.high >= config.throttleSamples then Throttled
    else if state.Throttled? && c.critical >= config.escalateSamples then Suspended
    else if !state.Normal? && c.low >= config.recoverSamples then Normal
    else state
  }

  function Move(c: Control, to: State): Control {
    c.(state := to, counters := ZERO)
  }

  function Sample(c: Control, percent: real): Control {
    var counted := c.(counters := Count(c.counters, c.config, percent));
    var to := Decision(c.config, c.state, counted.counters);
    if c.hold || to == c.state then counted else Move(counted, to)
  }

  function Force(c: Control, to: State, hold: bool): Control {
    if c.state == to then c.(hold := hold) else Move(c.(hold := hold), to)
  }

  function Start(config: Config): Control {
    Control(config, Normal, false, ZERO)
  }

  // ------------------------------------------------------ streaks of samples

  function Streaks(config: Config, samples: seq<real>): Counters {
    Counters(TrailingAtLeast(samples, config.throttlePercent), TrailingAtLeast(samples, config.escalatePercent),
             TrailingBelow(samples, config.recoverPercent))
  }

  function Fed(c: Control, samples: seq<real>): Control {
    if samples == [] then c else Sample(Fed(c, samples[..|samples| - 1]), samples[|samples| - 1])
  }

  /** No sample so far completed a streak that moves a machine out of this state. */
  predicate StaysPut(config: Config, state: State, samples: seq<real>) {
    samples == [] ||
    (Decision(config, state, Streaks(config, samples)) == state && StaysPut(config, state, samples[..|samples| - 1]))
  }

  /** From its last transition on the machine counts exactly the streaks, and stays while none is complete. */
  lemma {:induction false} CountsStreaks(c: Control, samples: seq<real>)
    requires c.counters == ZERO && !c.hold && StaysPut(c.config, c.state, samples)
    ensures Fed(c, samples) == c.(counters := Streaks(c.config, samples))
  {
    if samples != [] {
      var init, percent := samples[..|samples| - 1], samples[|samples| - 1];
      CountsStreaks(c, init);
      assert samples == init + [percent];
    }
  }

  /**
   A machine moves on the very sample that completes a streak of the required length since its last
   transition, to the state that streak calls for, and starts counting again.
   */
  lemma MovesOnStreak(c: Control, samples: seq<real>, percent: real)
    requires c.counters == ZERO && !c.hold && StaysPut(c.config, c.state, samples)
    ensures var streaks := Streaks(c.config, samples + [percent]);
      var to := Decision(c.config, c.state, streaks);
      Fed(c, samples + [percent]) == if to == c.state then c.(counters := streaks) else Move(c, to)
  {
    CountsStreaks(c, samples);
    assert (samples + [percent])[..|samples|] == samples;
  }

  /** As long as no sample has moved it, a machine has met no complete streak. */
  lemma {:induction false} UnmovedStaysPut(c: Control, samples: seq<real>)
    requires c.counters == ZERO && !c.hold
    requires forall k :: 0 <= k <= |samples| ==> Fed(c, samples[..k]).state == c.state
    ensures StaysPut(c.config, c.state, samples)
  {
    if samples != [] {
      var init, percent := samples[..|samples| - 1], samples[|samples| - 1];
      assert forall k :: 0 <= k <= |init| ==> init[..k] == samples[..k];
      UnmovedStaysPut(c, init);
      assert samples == init + [percent] && samples[..|samples|] == samples;
      MovesOnStreak(c, init, percent);
    }
  }

  /**
   Where the next sample takes a machine that has not moved since its counters were zero: up a state
   if the last samples were all high or critical, else back to normal if they were all low, as many as
   are asked for; and it counts anew after a move.
   */
  lemma MovesExactly(c: Control, samples: seq<real>, percent: real)
    requires c.counters == ZERO && !c.hold
    requires forall k :: 0 <= k <= |samples| ==> Fed(c, samples[..k]).state == c.state
    ensures var all, g, r := samples + [percent], c.config, Fed(c, samples + [percent]);
      r.state == (
        if c.state.Normal? && LastAtLeast(all, g.throttleSamples, g.throttlePercent) then Throttled
        else if c.state.Throttled? && LastAtLeast(all, g.escalateSamples, g.escalatePercent) then Suspended
        else if !c.state.Normal? && LastBelow(all, g.recoverSamples, g.recoverPercent) then Normal
        else c.state) &&
      (r.state != c.state ==> r.counters == ZERO) && r.config == g && !r.hold
  {
    hide LastAtLeast, LastBelow;
    var all, g := samples + [percent], c.config;
    UnmovedStaysPut(c, samples);
    MovesOnStreak(c, samples, percent);
    AtLeastExactly(all, g.throttleSamples, g.throttlePercent);
    AtLeastExactly(all, g.escalateSamples, g.escalatePercent);
    BelowExactly(all, g.recoverSamples, g.recoverPercent);
  }

  /** While it is held a machine counts, but whatever it is fed it does not move. */
  lemma {:induction false} HoldSticks(c: Control, samples: seq<real>)
    requires c.hold
    ensures Fed(c, samples).state == c.state && Fed(c, samples).hold && Fed(c, samples).config == c.config
  {
    if samples != [] { HoldSticks(c, samples[..|samples| - 1]); }
  }

  // ----------------------------------------------------------- no flapping

  datatype Event = Measure(percent: real) | Configure(config: Config) | Override(to: State, hold: bool) | Release

  /** A machine and its history: samples seen, automatic transitions made, samples since the last transition. */
  datatype Run = Run(control: Control, samples: nat, throttles: nat, suspensions: nat, recoveries: nat, sinceMove: nat)

  function Apply(run: Run, e: Event): Run {
    match e
    case Configure(config) => run.(control := run.control.(config := config))
    case Release => run.(control := run.control.(hold := false))
    case Override(to, hold) =>
      run.(control := Force(run.control, to, hold), sinceMove := if run.control.state == to then run.sinceMove else 0)
    case Measure(percent) =>
      var c := Sample(run.control, percent);
      var from, moved := run.control.state, c.state != run.control.state;
      Run(c, run.samples + 1,
          run.throttles + (if moved && c.state.Throttled? then 1 else 0),
          run.suspensions + (if moved && c.state.Suspended? then 1 else 0),
          run.recoveries + (if moved && c.state.Normal? then 1 else 0),
          if moved then 0 else run.sinceMove + 1)
  }

  function Exec(config: Config, events: seq<Event>): Run {
    if events == [] then Run(Start(config), 0, 0, 0, 0, 0)
    else Apply(Exec(config, events[..|events| - 1]), events[|events| - 1])
  }

  predicate SameCounts(a: Config, b: Config) {
    a.throttleSamples == b.throttleSamples && a.escalateSamples == b.escalateSamples &&
      a.recoverSamples == b.recoverSamples
  }

  ghost predicate CountsFixed(config: Config, events: seq<Event>) {
    forall i :: 0 <= i < |events| && events[i].Configure? ==> SameCounts(events[i].config, config)
  }

  /** The samples used up by automatic transitions, each transition taking its own. */
  function Spent(config: Config, run: Run): int {
    config.throttleSamples * run.throttles + config.escalateSamples * run.suspensions +
      config.recoverSamples * run.recoveries
  }

  predicate Paid(config: Config, run: Run) {
    var c := run.control.counters;
    SameCounts(run.control.config, config) &&
    c.high <= run.sinceMove && c.critical <= run.sinceMove && c.low <= run.sinceMove &&
    Spent(config, run) + run.sinceMove <= run.samples
  }

  lemma MeasureKeepsPaid(config: Config, run: Run, percent: real)
    requires Paid(config, run)
    ensures Paid(config, Apply(run, Measure(percent)))
  {
    var after := Apply(run, Measure(percent));
    var n, m, k := config.throttleSamples, config.escalateSamples, config.recoverSamples;
    assert n * (run.throttles + 1) == n * run.throttles + n;
    assert m * (run.suspensions + 1) == m * run.suspensions + m;
    assert k * (run.recoveries + 1) == k * run.recoveries + k;
  }

  /**
   No flapping: whatever the percentages, threshold changes, holds and forced states, T automatic
   throttles, S suspensions and R recoveries after L samples satisfy N*T + M*S + K*R <= L for the
   fixed sample counts N, M and K.
   */
  lemma {:induction false} NoFlapping(config: Config, events: seq<Event>)
    requires CountsFixed(config, events)
    ensures Paid(config, Exec(config, events))
    ensures Spent(config, Exec(config, events)) <= Exec(config, events).samples
  {
    if events != [] {
      var init, e := events[..|events| - 1], events[|events| - 1];
      NoFlapping(config, init);
      if e.Measure? { MeasureKeepsPaid(config, Exec(config, init), e.percent); }
    }
  }

  /** In every configuration used, recovery lies below the throttle and escalate thresholds, in that order. */
  predicate Banded(config: Config) {
    config.recoverPercent < config.throttlePercent <= config.escalatePercent
  }

  ghost predicate AlwaysBanded(config: Config, events: seq<Event>) {
    Banded(config) && forall i :: 0 <= i < |events| && events[i].Configure? ==> Banded(events[i].config)
  }

  /** High and low streaks are never both under way, and a critical streak is also a high one. */
  predicate Exclusive(c: Counters) {
    (c.high == 0 || c.low == 0) && c.critical <= c.high
  }

  lemma {:induction false} StreaksAreExclusive(config: Config, events: seq<Event>)
    requires AlwaysBanded(config, events)
    ensures Exclusive(Exec(config, events).control.counters) && Banded(Exec(config, events).control.config)
  {
    if events != [] {
      StreaksAreExclusive(config, events[..|events| - 1]);
    }
  }

  // ------------------------------------------------- acting on the process

  datatype Report = Report(from: State, to: State, percent: real, succeeded: bool)

  datatype Machine = Machine(name: string, pid: Pid, handle: bool, control: Control, reports: seq<Report>)

  /** What the OS answers during one transition: the thread snapshot, each thread call, and the priority call. */
  datatype Luck = Luck(snapshot: seq<Tid>, outcome: Tid -> Outcome, priority: PriorityChangeResult)

  predicate HasExited(m: Machine, p: Proc) {
    m.handle && p.exited
  }

  function OnThreads(op: Op, p: Proc, luck: Luck): Proc {
    p.(threads := Each(op, p.threads, luck.snapshot, luck.outcome))
  }

  function WithPriority(p: Proc, level: Priority, luck: Luck): Proc {
    if luck.priority.Success? then p.(priority := level) else p
  }

  /** The OS calls of a transition, and whether they all succeeded. */
  function Actuate(p: Proc, from: State, to: State, luck: Luck): (Proc, bool) {
    var told := Tally(luck.snapshot, luck.outcome).AllSucceeded();
    match to
    case Suspended => (OnThreads(Suspend, p, luck), told)
    case Throttled =>
      var resumed := from.Suspended? ==> told;
      var q := if from.Suspended? then OnThreads(Resume, p, luck) else p;
      if resumed then (WithPriority(q, IdlePriority, luck), luck.priority.Success?) else (q, false)
    case Normal =>
      var resumed := from.Suspended? ==> told;
      var q := if from.Suspended? then OnThreads(Resume, p, luck) else p;
      (WithPriority(q, NormalPriority, luck), resumed && luck.priority.Success?)
  }

  function Transition(m: Machine, p: Proc, to: State, percent: real, luck: Luck): (Machine, Proc) {
    var done := if HasExited(m, p) then (p, false) else Actuate(p, m.control.state, to, luck);
    (m.(control := Move(m.control, to), reports := m.reports + [Report(m.control.state, to, percent, done.1)]), done.0)
  }

  function Updated(m: Machine, p: Proc, percent: real, luck: Luck): (Machine, Proc) {
    var counted := m.(control := m.control.(counters := Count(m.control.counters, m.control.config, percent)));
    var to := Decision(m.control.config, m.control.state, counted.control.counters);
    if m.control.hold || to == m.control.state then (counted, p) else Transition(counted, p, to, percent, luck)
  }

  function Forced(m: Machine, p: Proc, to: State, percent: real, hold: bool, luck: Luck): (Machine, Proc) {
    var held := m.(control := m.control.(hold := hold));
    if m.control.state == to then (held, p) else Transition(held, p, to, percent, luck)
  }

  function Recovered(m: Machine, p: Proc, luck: Luck): (Machine, Proc) {
    Forced(m, p, Normal, 0.0, false, luck)
  }

  /** The machine that acts moves exactly as its control does. */
  lemma ActingFollowsControl(m: Machine, p: Proc, percent: real, to: State, hold: bool, luck: Luck)
    ensures Updated(m, p, percent, luck).0.control == Sample(m.control, percent)
    ensures Forced(m, p, to, percent, hold, luck).0.control == Force(m.control, to, hold)
  {
  }

  /** A transition reported as successful has been carried out: on every thread still there, and on the priority. */
  lemma SuccessIsReal(p: Proc, from: State, to: State, luck: Luck, t: Tid)
    requires Actuate(p, from, to, luck).1 && Distinct(luck.snapshot) && from != to
    requires t in p.threads && t in luck.snapshot && !luck.outcome(t).Gone?
    ensures var q := Actuate(p, from, to, luck).0;
      t in q.threads &&
      q.threads[t] == (if to.Suspended? then Effect(Suspend, p.threads[t])
                       else if from.Suspended? then Effect(Resume, p.threads[t]) else p.threads[t]) &&
      q.priority == match to case Suspended => p.priority case Throttled => IdlePriority case Normal => NormalPriority
  {
    AllSucceededExactly(luck.snapshot, luck.outcome);
    EachAt(if to.Suspended? then Suspend else Resume, p.threads, luck.snapshot, luck.outcome, t);
  }

  /**
   What a transition does to the process, whatever the OS answers: nothing if it has exited. Threads are
   suspended on the way to Suspended and resumed on the way from it. The priority is set to idle, unless the
   threads could not be resumed, or to normal in any case; and it only counts as done if every call succeeded.
   */
  lemma TransitionExactly(m: Machine, p: Proc, to: State, percent: real, luck: Luck)
    requires m.control.state != to
    ensures var r, told := Transition(m, p, to, percent, luck), Tally(luck.snapshot, luck.outcome).AllSucceeded();
      var runs, sus := !(m.handle && p.exited), m.control.state.Suspended?;
      var tries := runs && !to.Suspended? && (to.Throttled? && sus ==> told);
      r.1 == p.(
        threads := if runs && (to.Suspended? || sus)
          then Each(if sus then Resume else Suspend, p.threads, luck.snapshot, luck.outcome) else p.threads,
        priority := if !tries || !luck.priority.Success? then p.priority
          else if to.Throttled? then IdlePriority else NormalPriority) &&
      (r.0.reports[|m.reports|].succeeded <==>
       runs && (to.Suspended? || sus ==> told) && (!to.Suspended? ==> luck.priority.Success?))
  {
  }

  /** The reports of a machine tell where it went, from the normal state to the one it is in, without a gap. */
  predicate Reported(m: Machine) {
    (if m.reports == [] then m.control.state.Normal?
     else m.reports[0].from.Normal? && m.reports[|m.reports| - 1].to == m.control.state) &&
    (forall i :: 0 <= i < |m.reports| ==> m.reports[i].from != m.reports[i].to) &&
    (forall i :: 0 < i < |m.reports| ==> m.reports[i - 1].to == m.reports[i].from)
  }

  /** Each move is reported once, with the percentage and whether it was carried out; what stays is not. */
  lemma ReportsFollowStates(m: Machine, p: Proc, percent: real, to: State, hold: bool, luck: Luck)
    requires Reported(m)
    ensures forall r: Machine | r in [Updated(m, p, percent, luck).0, Forced(m, p, to, percent, hold, luck).0] ::
      Reported(r) && m.reports <= r.reports &&
      |r.reports| == |m.reports| + (if r.control.state != m.control.state then 1 else 0) &&
      (r.control.state != m.control.state ==>
        var last := r.reports[|m.reports|];
        last.percent == percent &&
        (last.succeeded <==> !HasExited(m, p) && Actuate(p, m.control.state, r.control.state, luck).1))
  {
    hide Transition, Reported, Actuate, Count;
    var control := m.control.(counters := Count(m.control.counters, m.control.config, percent));
    var moved := Decision(m.control.config, m.control.state, control.counters);
    var counted, held := m.(control := control), m.(control := m.control.(hold := hold));
    ReportsAlike(m, counted);
    ReportsAlike(m, held);
    if moved != m.control.state { TransitionIsReported(counted, p, moved, percent, luck); }
    if to != m.control.state { TransitionIsReported(held, p, to, percent, luck); }
  }

  lemma ReportsAlike(m: Machine, n: Machine)
    requires m.reports == n.reports && m.control.state == n.control.state
    ensures Reported(m) <==> Reported(n)
  {
  }

  lemma TransitionIsReported(m: Machine, p: Proc, to: State, percent: real, luck: Luck)
    requires Reported(m) && m.control.state != to
    ensures var r := Transition(m, p, to, percent, luck).0;
      Reported(r) && m.reports <= r.reports && |r.reports| == |m.reports| + 1 && r.control.state == to &&
      var last := r.reports[|m.reports|];
      last.percent == percent &&
      (last.succeeded <==> !HasExited(m, p) && Actuate(p, m.control.state, to, luck).1)
  {
    hide Actuate;
  }

  // ------------------------------------------------------------- the code

  class ProcessStateMachine {
    const name: string
    const pid: Pid
    const handle: bool
    const os: Os
    var config: Config
    var state: State
    var manualHold: bool
    var high: nat
    var critical: nat
    var low: nat
    var reports: seq<Report>

    function Abs(): Machine
      reads this
    {
      Machine(name, pid, handle, Control(config, state, manualHold, Counters(high, critical, low)), reports)
    }

    function Process(): Proc
      reads os
    {
      Look(os.procs, pid)
    }

    /** `handle` says whether the process could be opened. */
    constructor (name: string, pid: Pid, config: Config, handle: bool, os: Os)
      ensures Abs() == Machine(name, pid, handle, Start(config), []) && this.os == os && this.pid == pid
    {
      this.name, this.pid, this.handle, this.os, this.config := name, pid, handle, os, config;
      state, manualHold, high, critical, low, reports := Normal, false, 0, 0, 0, [];
    }

    method HasExitedNow() returns (exited: bool)
      ensures exited == HasExited(Abs(), Process())
    {
      if !handle { return false; }
      exited := Look(os.procs, pid).exited;
    }

    method Update(percent: real, luck: Luck) returns (changed: bool)
      modifies this, os
      ensures var r := Updated(old(Abs()), old(Process()), percent, luck);
        Abs() == r.0 && os.procs == Put(old(os.procs), pid, r.1) && changed == (state != old(state))
    {
      hide Transition, Look;
      PutLook(os.procs, pid);
      var before := state;
      high := if percent >= config.throttlePercent then high + 1 else 0;
      critical := if percent >= config.escalatePercent then critical + 1 else 0;
      low := if percent < config.recoverPercent then low + 1 else 0;
      ghost var counted := Counters(high, critical, low);
      assert counted == Count(old(Abs()).control.counters, config, percent);
      assert Abs() == old(Abs()).(control := old(Abs()).control.(counters := counted));
      if manualHold { return false; }
      hide Count, Put;
      if state.Normal? && high >= config.throttleSamples {
        TransitionTo(Throttled, percent, luck);
      } else if state.Throttled? && critical >= config.escalateSamples {
        TransitionTo(Suspended, percent, luck);
      } else if (state.Throttled? || state.Suspended?) && low >= config.recoverSamples {
        TransitionTo(Normal, percent, luck);
      }
      changed := state != before;
    }

    method TransitionTo(to: State, percent: real, luck: Luck)
      modifies this, os
      ensures var r := Transition(old(Abs()), old(Process()), to, percent, luck);
        Abs() == r.0 && os.procs == Put(old(os.procs), pid, r.1)
    {
      hide Actuate;
      var from, succeeded := state, true;
      var exited := HasExitedNow();
      if exited {
        succeeded := false;
      } else {
        succeeded := Act(from, to, luck);
      }
      state := to;
      high, critical, low := 0, 0, 0;
      reports := reports + [Report(from, to, percent, succeeded)];
    }

    method Act(from: State, to: State, luck: Luck) returns (succeeded: bool)
      modifies os
      ensures var r := Actuate(old(Process()), from, to, luck);
        succeeded == r.1 && os.procs == Put(old(os.procs), pid, r.0)
    {
      var resumed := true;
      match to
      case Suspended =>
        var result := os.SuspendAllThreads(pid, luck.snapshot, luck.outcome);
        succeeded := result.AllSucceeded();
      case Throttled =>
        if from.Suspended? {
          var result := os.ResumeAllThreads(pid, luck.snapshot, luck.outcome);
          resumed := result.AllSucceeded();
        }
        succeeded := false;
        if resumed {
          var answer := os.SetProcessPriority(pid, IdlePriority, luck.priority);
          succeeded := answer.Success?;
        }
      case Normal =>
        if from.Suspended? {
          var result := os.ResumeAllThreads(pid, luck.snapshot, luck.outcome);
          resumed := result.AllSucceeded();
        }
        var answer := os.SetProcessPriority(pid, NormalPriority, luck.priority);
        succeeded := resumed && answer.Success?;
    }

    method ForceState(to: State, percent: real, hold: bool, luck: Luck)
      modifies this, os
      ensures var r := Forced(old(Abs()), old(Process()), to, percent, hold, luck);
        Abs() == r.0 && os.procs == Put(old(os.procs), pid, r.1)
    {
      manualHold := hold;
      if state != to { TransitionTo(to, percent, luck); }
    }

    method ForceRecoverForShutdown(luck: Luck)
      modifies this, os
      ensures var r := Recovered(old(Abs()), old(Process()), luck);
        Abs() == r.0 && os.procs == Put(old(os.procs), pid, r.1)
    {
      manualHold := false;
      if state.Normal? { return; }
      TransitionTo(Normal, 0.0, luck);
    }

    method SetConfig(config: Config)
      modifies this
      ensures Abs() == old(Abs()).(control := old(Abs()).control.(config := config))
    {
      this.config := config;
    }

    method ReleaseManualHold()
      modifies this
      ensures Abs() == old(Abs()).(control := old(Abs()).control.(hold := false))
    {
      manualHold := false;
    }
  }
}
