/**
 Auto-protect (AutoProtect.cpp): while the whole machine is overloaded the heaviest ordinary
 processes get a lower priority, and each gets its own back afterwards. A process is kept open while
 it is throttled, so its pid is not used again. The runs at the end are those of auto-protect alone,
 in which no one else changes priorities.
 */
module AutoProtect {
  import opened Bytes
  import opened OsControl
  import opened AutoPolicy

  /** A line of the process table: `ordinary` says that it is not essential, a system process or a service. */
  datatype Row = Row(pid: Pid, name: string, cpu: real, accessible: bool, ordinary: bool)

  /** Whether the process can be opened, and whether its priority can be set. */
  datatype Calls = Calls(opens: bool, sets: bool)

  type Answers = Pid -> Calls

  datatype Protector = Protector(settings: Settings, level: LevelState, throttled: map<Pid, Entry>,
                                 exempt: set<Pid>, procs: Procs)

  function TargetOf(l: Level): Priority {
    if l.IdleLevel? then IdlePriority else BelowNormal
  }

  function ExitedEntries(p: Protector): (e: set<Pid>)
    ensures e <= p.throttled.Keys
  {
    set pid | pid in p.throttled && Look(p.procs, pid).exited
  }

  function Forgotten(p: Protector): Protector {
    p.(throttled := p.throttled - ExitedEntries(p))
  }

  /** The priority of the process after its restore: a process that has exited is not touched. */
  function GivenBack(q: Proc, e: Entry, c: Calls): Proc {
    if !q.exited && c.sets then q.(priority := e.original) else q
  }

  /** Restores some of the entries and erases them. */
  function Restored(p: Protector, pids: set<Pid>, luck: Answers): (r: Protector)
    ensures r.throttled.Keys == p.throttled.Keys - pids
  {
    p.(throttled := p.throttled - pids,
       procs := map pid | pid in p.procs ::
                  if pid in pids && pid in p.throttled then GivenBack(p.procs[pid], p.throttled[pid], luck(pid))
                    else p.procs[pid])
  }

  predicate CanSink(e: Entry, target: Priority, c: Calls) {
    Rank(e.current) > Rank(target) && c.sets
  }

  /** Lowers entries that are still above the target. */
  function Escalated(p: Protector, pids: set<Pid>, target: Priority, luck: Answers): Protector {
    p.(throttled := map pid | pid in p.throttled ::
                      if pid in pids && CanSink(p.throttled[pid], target, luck(pid))
                        then p.throttled[pid].(current := target)
                      else p.throttled[pid],
       procs := map pid | pid in p.procs ::
                  if pid in pids && pid in p.throttled && CanSink(p.throttled[pid], target, luck(pid))
                  then p.procs[pid].(priority := target) else p.procs[pid])
  }

  function Pids(rows: seq<Row>): set<Pid> {
    set r | r in rows :: r.pid
  }

  function Pruned(p: Protector, rows: seq<Row>): Protector {
    p.(exempt := p.exempt * Pids(rows))
  }

  predicate IsEligible(p: Protector, r: Row, exclude: (string, Pid) -> bool) {
    r.accessible && r.ordinary && r.pid !in p.throttled && r.pid !in p.exempt && !exclude(r.name, r.pid)
  }

  function Eligible(p: Protector, rows: seq<Row>, exclude: (string, Pid) -> bool): (e: seq<Candidate>)
    ensures forall c :: c in e ==>
      c.pid !in p.throttled && c.pid !in p.exempt && !exclude(c.name, c.pid) && c.pid in Pids(rows)
  {
    if rows == [] then []
    else
      var r := rows[|rows| - 1];
      assert rows == rows[..|rows| - 1] + [r];
      Eligible(p, rows[..|rows| - 1], exclude) +
      if IsEligible(p, r, exclude) then [Candidate(r.pid, r.name, r.cpu)] else []
  }

  /** The process is running, allows it, and is not low enough yet. */
  predicate CanLower(p: Protector, pid: Pid, target: Priority, c: Calls) {
    var q := Look(p.procs, pid);
    c.opens && !q.exited && Rank(q.priority) > Rank(target) && c.sets
  }

  function Lowered(p: Protector, pid: Pid, target: Priority, c: Calls): Protector {
    var q := Look(p.procs, pid);
    if !CanLower(p, pid, target, c) then p
    else p.(throttled := if pid in p.throttled then p.throttled else p.throttled[pid := Entry(q.priority, target)],
            procs := Put(p.procs, pid, q.(priority := target)))
  }

  function LoweredAll(p: Protector, chosen: seq<Candidate>, target: Priority, luck: Answers): Protector {
    if chosen == [] then p
    else
      var last := chosen[|chosen| - 1];
      Lowered(LoweredAll(p, chosen[..|chosen| - 1], target, luck), last.pid, target, luck(last.pid))
  }

  /** How many more processes may be throttled. */
  function Slots(p: Protector): nat {
    if |p.throttled| < p.settings.maxProcesses then p.settings.maxProcesses - |p.throttled| else 0
  }

  /** The state in which new processes are chosen, if they are. */
  function BeforeChoice(p: Protector, cpu: real, rows: seq<Row>, luck: Answers): Protector {
    var q := Forgotten(p).(level := Updated(p.level, cpu, p.settings));
    var pruned := Pruned(q, rows);
    Escalated(pruned, pruned.throttled.Keys, TargetOf(q.level.level), luck)
  }

  function Ticked(p: Protector, cpu: real, rows: seq<Row>, luck: Answers, chosen: seq<Candidate>): Protector {
    if !p.settings.enabled then p
    else
      var q := Forgotten(p).(level := Updated(p.level, cpu, p.settings));
      if q.level.level.NormalLevel? then Restored(q, q.throttled.Keys, luck)
      else LoweredAll(BeforeChoice(p, cpu, rows, luck), chosen, TargetOf(q.level.level), luck)
  }

  /** The choice of a tick is the top choice of the eligible processes; without room none is made. */
  ghost predicate RightChoice(p: Protector, cpu: real, rows: seq<Row>, exclude: (string, Pid) -> bool, luck: Answers,
                              chosen: seq<Candidate>)
  {
    var q := BeforeChoice(p, cpu, rows, luck);
    Elevated(p, cpu) ==> IsTop(chosen, Eligible(q, rows, exclude), p.settings.minProcessCpuPercent, Slots(q))
  }

  predicate Elevated(p: Protector, cpu: real) {
    p.settings.enabled && !Updated(p.level, cpu, p.settings).level.NormalLevel?
  }

  function Configured(p: Protector, s: Settings, luck: Answers): Protector {
    var q := p.(settings := s);
    if s.enabled then q else Restored(q, q.throttled.Keys, luck).(level := CALM)
  }

  /** Each of these is restored if it is throttled, and not throttled again until it exits. */
  function Excused(p: Protector, pids: set<Pid>, luck: Answers): Protector {
    Restored(p, pids, luck).(exempt := p.exempt + pids)
  }

  function Exempted(p: Protector, pid: Pid, luck: Answers): Protector {
    Excused(p, {pid}, luck)
  }

  // ------------------------------------------------------------ invariant

  /** An entry knows the priority its process came with, and the process is where the entry says, strictly below. */
  predicate EntryOk(q: Proc, e: Entry) {
    Rank(e.current) < Rank(e.original) && e.original == q.original && (q.exited || q.priority == e.current)
  }

  predicate Reversible(p: Protector) {
    (forall pid :: pid in p.throttled ==> pid in p.procs && EntryOk(p.procs[pid], p.throttled[pid])) &&
    (forall pid :: pid in p.procs && pid !in p.throttled ==>
      p.procs[pid].exited || p.procs[pid].priority == p.procs[pid].original) &&
    p.throttled.Keys !! p.exempt
  }

  /** Nothing is throttled on the normal level, nor while auto-protect is off. */
  predicate Idle(p: Protector) {
    (p.level.level.NormalLevel? ==> p.throttled == map[]) && (!p.settings.enabled ==> p.level.level.NormalLevel?)
  }

  predicate Inv(p: Protector) {
    Reversible(p) && Idle(p)
  }

  /** Restoring succeeds. */
  predicate Restores(p: Protector, luck: Answers) {
    forall pid :: pid in p.throttled ==> luck(pid).sets
  }

  lemma ForgetKeeps(p: Protector)
    requires Reversible(p)
    ensures Reversible(Forgotten(p))
  {
  }

  /** A process has its own priority back after its restore exactly if the call succeeded (or it has exited). */
  lemma RestoreExactly(p: Protector, pid: Pid, luck: Answers)
    requires Reversible(p) && pid in p.throttled && !p.procs[pid].exited
    ensures Restored(p, {pid}, luck).procs[pid].priority == p.procs[pid].original <==> luck(pid).sets
  {
  }

  lemma EscalateKeeps(p: Protector, pids: set<Pid>, target: Priority, luck: Answers)
    requires Reversible(p)
    ensures Reversible(Escalated(p, pids, target, luck))
  {
  }

  /** Newly throttled processes are running and were chosen. */
  predicate NewAreChosen(p: Protector, r: Protector, chosen: seq<Candidate>) {
    forall k :: k in r.throttled && k !in p.throttled ==>
      !Look(p.procs, k).exited && exists c :: c in chosen && c.pid == k
  }

  predicate SameLife(p: Protector, r: Protector) {
    p.procs.Keys == r.procs.Keys && forall k :: k in p.procs ==> r.procs[k].exited == p.procs[k].exited
  }

  /** r has the entries of p, and the same settings, level and exemptions. */
  predicate Extends(p: Protector, r: Protector) {
    r.exempt == p.exempt && r.settings == p.settings && r.level == p.level && SameLife(p, r) &&
    forall k :: k in p.throttled ==> k in r.throttled && r.throttled[k] == p.throttled[k]
  }

  lemma LowerAdds(p: Protector, pid: Pid, target: Priority, c: Calls)
    requires pid !in p.throttled
    ensures var r := Lowered(p, pid, target, c);
      Extends(p, r) && r.throttled.Keys <= p.throttled.Keys + {pid} &&
      (pid in r.throttled ==> !Look(p.procs, pid).exited)
  {
  }

  lemma LowerKeeps(p: Protector, pid: Pid, target: Priority, c: Calls)
    requires Reversible(p) && pid !in p.throttled && pid !in p.exempt
    ensures Reversible(Lowered(p, pid, target, c))
  {
  }

  /** After lowering some of the chosen: who may be throttled now, and who was is as before. */
  lemma {:induction false} LowerAllAdds(p: Protector, chosen: seq<Candidate>, target: Priority, luck: Answers)
    requires DistinctPids(chosen) && forall c :: c in chosen ==> c.pid !in p.throttled
    ensures var r := LoweredAll(p, chosen, target, luck);
      Extends(p, r) && |r.throttled| <= |p.throttled| + |chosen| && NewAreChosen(p, r, chosen)
  {
    if chosen != [] {
      hide Lowered, NewAreChosen, SameLife;
      var init, last := chosen[..|chosen| - 1], chosen[|chosen| - 1];
      assert chosen == init + [last];
      LowerAllAdds(p, init, target, luck);
      var q := LoweredAll(p, init, target, luck);
      NotChosenYet(p, q, init, last);
      LowerAdds(q, last.pid, target, luck(last.pid));
      OneMore(q, Lowered(q, last.pid, target, luck(last.pid)), last.pid);
      OneMoreChosen(p, q, Lowered(q, last.pid, target, luck(last.pid)), init, last);
    } else {
      NoneChosen(p);
    }
  }

  lemma NotChosenYet(p: Protector, q: Protector, chosen: seq<Candidate>, c: Candidate)
    requires NewAreChosen(p, q, chosen) && DistinctPids(chosen + [c]) && c.pid !in p.throttled
    ensures c.pid !in q.throttled
  {
    LastIsNew(chosen, c);
  }

  lemma {:induction false} LowerAllKeeps(p: Protector, chosen: seq<Candidate>, target: Priority, luck: Answers)
    requires Reversible(p) && DistinctPids(chosen)
    requires forall c :: c in chosen ==> c.pid !in p.throttled && c.pid !in p.exempt
    ensures Reversible(LoweredAll(p, chosen, target, luck))
  {
    if chosen != [] {
      hide Lowered, NewAreChosen, SameLife, Reversible;
      var init, last := chosen[..|chosen| - 1], chosen[|chosen| - 1];
      assert chosen == init + [last];
      LowerAllAdds(p, init, target, luck);
      LowerAllKeeps(p, init, target, luck);
      var q := LoweredAll(p, init, target, luck);
      NotChosenYet(p, q, init, last);
      LowerKeeps(q, last.pid, target, luck(last.pid));
    }
  }

  lemma NoneChosen(p: Protector)
    ensures NewAreChosen(p, p, []) && SameLife(p, p)
  {
  }

  lemma OneMoreChosen(p: Protector, q: Protector, r: Protector, chosen: seq<Candidate>, c: Candidate)
    requires NewAreChosen(p, q, chosen) && SameLife(p, q) && SameLife(q, r)
    requires r.throttled.Keys <= q.throttled.Keys + {c.pid} && (c.pid in r.throttled ==> !Look(q.procs, c.pid).exited)
    ensures NewAreChosen(p, r, chosen + [c]) && SameLife(p, r)
  {
    forall k | k in r.throttled && k !in p.throttled
      ensures !Look(p.procs, k).exited && exists d :: d in chosen + [c] && d.pid == k
    {
      if k in q.throttled {
        var d :| d in chosen && d.pid == k;
        assert d in chosen + [c];
      } else {
        assert c in chosen + [c];
      }
    }
  }

  lemma OneMore(p: Protector, r: Protector, pid: Pid)
    requires r.throttled.Keys <= p.throttled.Keys + {pid}
    ensures |r.throttled| <= |p.throttled| + 1
  {
    Smaller(r.throttled.Keys, p.throttled.Keys + {pid});
    assert |p.throttled.Keys + {pid}| <= |p.throttled.Keys| + 1;
  }

  /** The table has one line for a pid. */
  ghost predicate OnePerPid(rows: seq<Row>) {
    forall i, j :: 0 <= i < j < |rows| ==> rows[i].pid != rows[j].pid
  }

  lemma {:induction false} EligibleDistinct(p: Protector, rows: seq<Row>, exclude: (string, Pid) -> bool)
    requires OnePerPid(rows)
    ensures DistinctPids(Eligible(p, rows, exclude))
  {
    if rows != [] {
      var init, r := rows[..|rows| - 1], rows[|rows| - 1];
      EligibleDistinct(p, init, exclude);
      forall c | c in Eligible(p, init, exclude) ensures c.pid != r.pid {
        assert c.pid in Pids(init);
      }
    }
  }

  /** A choice among the eligible: distinct, and neither throttled, exempt nor excluded. */
  lemma ChoiceIsNew(q: Protector, rows: seq<Row>, exclude: (string, Pid) -> bool, chosen: seq<Candidate>)
    requires OnePerPid(rows) && IsTop(chosen, Eligible(q, rows, exclude), q.settings.minProcessCpuPercent, Slots(q))
    ensures DistinctPids(chosen) && |chosen| <= Slots(q)
    ensures forall c :: c in chosen ==> c.pid !in q.throttled && c.pid !in q.exempt && !exclude(c.name, c.pid)
  {
    EligibleDistinct(q, rows, exclude);
  }

  lemma BeforeChoiceShape(p: Protector, cpu: real, rows: seq<Row>, luck: Answers)
    ensures var q := BeforeChoice(p, cpu, rows, luck);
      q.settings == p.settings && q.throttled.Keys == p.throttled.Keys - ExitedEntries(p) && q.exempt <= p.exempt &&
      q.level == Updated(p.level, cpu, p.settings) && SameLife(p, q) && NoneRaised(p, q)
  {
    hide Updated;
    var f := Forgotten(p).(level := Updated(p.level, cpu, p.settings));
    var g := Pruned(f, rows);
  }

  lemma BeforeChoiceKeeps(p: Protector, cpu: real, rows: seq<Row>, luck: Answers)
    requires Reversible(p)
    ensures Reversible(BeforeChoice(p, cpu, rows, luck))
  {
    hide EntryOk;
    ForgetKeeps(p);
    var f := Forgotten(p).(level := Updated(p.level, cpu, p.settings));
    assert Reversible(f);
    var g := Pruned(f, rows);
    EscalateKeeps(g, g.throttled.Keys, TargetOf(f.level.level), luck);
  }

  /** Entries of p that are left in r are not raised and still know their original. */
  predicate NoneRaised(p: Protector, r: Protector) {
    forall k :: k in r.throttled && k in p.throttled ==>
      r.throttled[k].original == p.throttled[k].original && Rank(r.throttled[k].current) <= Rank(p.throttled[k].current)
  }

  /** Only entries of exited processes are gone before the choice, and those processes are not chosen again. */
  lemma StillNotRaised(p: Protector, q: Protector, r: Protector, chosen: seq<Candidate>)
    requires q.throttled.Keys == p.throttled.Keys - ExitedEntries(p) && SameLife(p, q) && NoneRaised(p, q)
    requires NewAreChosen(q, r, chosen)
    requires forall k :: k in q.throttled ==> k in r.throttled && r.throttled[k] == q.throttled[k]
    ensures NoneRaised(p, r) && NewAreChosen(p, r, chosen)
  {
  }

  /** No exempt process is throttled, and nothing is when it should not be. */
  predicate Tidy(p: Protector) {
    p.throttled.Keys !! p.exempt && Idle(p)
  }

  /**
   A tick, whoever else changes priorities: entries are never raised, the limit is kept, a process that
   is newly throttled is one of the top choice among the eligible ones, and things stay tidy.
   */
  lemma TickIsTidy(p: Protector, cpu: real, rows: seq<Row>, exclude: (string, Pid) -> bool, luck: Answers,
                   chosen: seq<Candidate>)
    requires Tidy(p) && OnePerPid(rows) && RightChoice(p, cpu, rows, exclude, luck, chosen)
    ensures var r := Ticked(p, cpu, rows, luck, chosen);
      Tidy(r) && r.settings == p.settings && NoneRaised(p, r) && NewAreChosen(p, r, chosen) &&
      (|p.throttled| <= p.settings.maxProcesses ==> |r.throttled| <= p.settings.maxProcesses)
    ensures Elevated(p, cpu) ==> forall c :: c in chosen ==> !exclude(c.name, c.pid)
  {
    if Elevated(p, cpu) {
      hide Eligible, IsTop, OnePerPid, BeforeChoice, LoweredAll, Updated, SameLife;
      var q := BeforeChoice(p, cpu, rows, luck);
      BeforeChoiceShape(p, cpu, rows, luck);
      ChoiceIsNew(q, rows, exclude, chosen);
      LowerAllAdds(q, chosen, TargetOf(q.level.level), luck);
      StillNotRaised(p, q, LoweredAll(q, chosen, TargetOf(q.level.level), luck), chosen);
      Smaller(q.throttled.Keys, p.throttled.Keys);
    } else {
      hide Updated;
      var f := Forgotten(p).(level := Updated(p.level, cpu, p.settings));
      RestoredNone(f, luck);
    }
  }

  lemma RestoredNone(p: Protector, luck: Answers)
    ensures var r := Restored(p, p.throttled.Keys, luck);
      r.throttled == map[] && r.settings == p.settings && r.level == p.level && r.exempt == p.exempt &&
      |r.throttled| == 0
  {
    assert p.throttled - p.throttled.Keys == map[];
  }

  lemma CalmTickKeeps(p: Protector, cpu: real, luck: Answers)
    requires Reversible(p) && Restores(p, luck)
    ensures var f := Forgotten(p).(level := Updated(p.level, cpu, p.settings));
      Reversible(Restored(f, f.throttled.Keys, luck))
  {
    hide Updated;
  }

  /** If nobody else changes priorities, a tick also keeps every throttled process reversible. */
  lemma TickKeeps(p: Protector, cpu: real, rows: seq<Row>, exclude: (string, Pid) -> bool, luck: Answers,
                  chosen: seq<Candidate>)
    requires Inv(p) && OnePerPid(rows) && RightChoice(p, cpu, rows, exclude, luck, chosen)
    requires !Elevated(p, cpu) ==> Restores(p, luck)
    ensures var r := Ticked(p, cpu, rows, luck, chosen);
      Inv(r) && r.settings == p.settings && NoneRaised(p, r) && NewAreChosen(p, r, chosen) &&
      (|p.throttled| <= p.settings.maxProcesses ==> |r.throttled| <= p.settings.maxProcesses)
  {
    TickIsTidy(p, cpu, rows, exclude, luck, chosen);
    hide Reversible, OnePerPid, Updated, Restored, LoweredAll, BeforeChoice, Eligible, IsTop, Idle;
    if Elevated(p, cpu) {
      var q := BeforeChoice(p, cpu, rows, luck);
      BeforeChoiceKeeps(p, cpu, rows, luck);
      BeforeChoiceShape(p, cpu, rows, luck);
      ChoiceIsNew(q, rows, exclude, chosen);
      LowerAllKeeps(q, chosen, TargetOf(q.level.level), luck);
    } else if p.settings.enabled {
      CalmTickKeeps(p, cpu, luck);
    }
  }

  // ----------------------------------------------- what a tick does, exactly

  /** The candidates are exactly the lines of the table that may be touched. */
  lemma {:induction false} EligibleExactly(p: Protector, rows: seq<Row>, exclude: (string, Pid) -> bool, c: Candidate)
    ensures c in Eligible(p, rows, exclude) <==>
      exists r :: r in rows && r.accessible && r.ordinary && r.pid !in p.throttled && r.pid !in p.exempt &&
        !exclude(r.name, r.pid) && c == Candidate(r.pid, r.name, r.cpu)
  {
    if rows != [] {
      var init, last := rows[..|rows| - 1], rows[|rows| - 1];
      EligibleExactly(p, init, exclude, c);
      assert rows == init + [last];
      assert forall r :: r in rows <==> r in init || r == last;
    }
  }

  /** The process k after lowering: throttled with its own entry or a new one, on the target priority if it sank. */
  predicate LoweredTo(p: Protector, r: Protector, k: Pid, target: Priority, sinks: bool) {
    var q := Look(p.procs, k);
    r.exempt == p.exempt && r.level == p.level && r.settings == p.settings && r.procs.Keys == p.procs.Keys &&
    (k in r.throttled <==> k in p.throttled || sinks) &&
    (k in r.throttled ==> r.throttled[k] == if k in p.throttled then p.throttled[k] else Entry(q.priority, target)) &&
    Look(r.procs, k) == if sinks then q.(priority := target) else q
  }

  lemma LowerExactly(p: Protector, pid: Pid, target: Priority, c: Calls, k: Pid)
    requires pid !in p.throttled
    ensures var q := Look(p.procs, k);
      LoweredTo(p, Lowered(p, pid, target, c), k, target,
                k == pid && c.opens && c.sets && !q.exited && Rank(q.priority) > Rank(target))
  {
  }

  /** What lowering the chosen does to one process. */
  lemma {:induction false} LowerAllExactly(p: Protector, chosen: seq<Candidate>, target: Priority, luck: Answers,
                                           k: Pid)
    requires DistinctPids(chosen) && forall c :: c in chosen ==> c.pid !in p.throttled
    ensures var q := Look(p.procs, k);
      LoweredTo(p, LoweredAll(p, chosen, target, luck), k, target,
                (exists c :: c in chosen && c.pid == k) && luck(k).opens && luck(k).sets && !q.exited &&
                Rank(q.priority) > Rank(target))
  {
    if chosen != [] {
      hide Lowered, CanLower;
      var init, last := chosen[..|chosen| - 1], chosen[|chosen| - 1];
      assert chosen == init + [last];
      LastIsNew(init, last);
      assert forall c :: c in chosen <==> c in init || c == last;
      LowerAllExactly(p, init, target, luck, k);
      LowerAllExactly(p, init, target, luck, last.pid);
      var q := LoweredAll(p, init, target, luck);
      LowerExactly(q, last.pid, target, luck(last.pid), k);
      assert LoweredAll(p, chosen, target, luck) == Lowered(q, last.pid, target, luck(last.pid));
    }
  }

  lemma LastIsNew(init: seq<Candidate>, last: Candidate)
    requires DistinctPids(init + [last])
    ensures forall c :: c in init ==> c.pid != last.pid
  {
    forall c | c in init ensures c.pid != last.pid {
      var i :| 0 <= i < |init| && init[i] == c;
      assert (init + [last])[i] == c && (init + [last])[|init|] == last;
    }
  }

  /**
   What one tick does to each process k while load is elevated: nothing throttled is forgotten but the
   exited, every entry that can be is lowered to the level's priority, the chosen are lowered and remembered
   if the OS lets them, and an exemption is kept exactly if its process is in the table.
   */
  lemma TickExactly(p: Protector, cpu: real, rows: seq<Row>, exclude: (string, Pid) -> bool, luck: Answers,
                    chosen: seq<Candidate>, k: Pid)
    requires OnePerPid(rows) && RightChoice(p, cpu, rows, exclude, luck, chosen) && Elevated(p, cpu)
    requires forall pid :: pid in p.throttled ==> pid in p.procs
    ensures var r, q := Ticked(p, cpu, rows, luck, chosen), Look(p.procs, k);
      var target := if Updated(p.level, cpu, p.settings).level.IdleLevel? then IdlePriority else BelowNormal;
      var kept := k in p.throttled && !q.exited;
      var isChosen := exists c :: c in chosen && c.pid == k;
      var sinks := luck(k).sets && Rank(if kept then p.throttled[k].current else q.priority) > Rank(target);
      (k in r.throttled <==> kept || (isChosen && luck(k).opens && !q.exited && sinks)) &&
      (k in r.throttled ==>
        r.throttled[k] == if !kept then Entry(q.priority, target)
          else if sinks then p.throttled[k].(current := target) else p.throttled[k]) &&
      Look(r.procs, k) == (if k in r.throttled && sinks then q.(priority := target) else q) &&
      (k in r.exempt <==> k in p.exempt && exists row :: row in rows && row.pid == k)
  {
    hide Eligible, IsTop, OnePerPid, LoweredAll, Updated;
    var q, target := BeforeChoice(p, cpu, rows, luck), TargetOf(Updated(p.level, cpu, p.settings).level);
    ChoiceIsNew(q, rows, exclude, chosen);
    LowerAllExactly(q, chosen, target, luck, k);
    PidsExactly(rows, k);
  }

  /** A process heavy enough to be chosen that may be, and that is not among those still throttled. */
  ghost predicate MayBeChosen(p: Protector, rows: seq<Row>, exclude: (string, Pid) -> bool, c: Candidate) {
    c.cpu >= p.settings.minProcessCpuPercent && (c.pid in p.throttled ==> Look(p.procs, c.pid).exited) &&
    exists r :: r in rows && r.accessible && r.ordinary && r.pid !in p.exempt && !exclude(r.name, r.pid) &&
      c == Candidate(r.pid, r.name, r.cpu)
  }

  /**
   The right choice for an elevated tick: of the processes that may be chosen the heaviest, in order, as
   many as there is room for beside those that are throttled and still run.
   */
  lemma ChoiceExactly(p: Protector, cpu: real, rows: seq<Row>, exclude: (string, Pid) -> bool, luck: Answers,
                      chosen: seq<Candidate>)
    requires Elevated(p, cpu)
    ensures var running := set k | k in p.throttled && !Look(p.procs, k).exited;
      var room := if |running| <= p.settings.maxProcesses then p.settings.maxProcesses - |running| else 0;
      RightChoice(p, cpu, rows, exclude, luck, chosen) <==>
        Ranked(chosen) && |chosen| <= room && (forall c :: c in chosen ==> MayBeChosen(p, rows, exclude, c)) &&
        forall c :: MayBeChosen(p, rows, exclude, c) && c !in chosen ==>
          |chosen| == room && forall d :: d in chosen ==> Before(d, c)
  {
    hide BeforeChoice, Eligible, MayBeChosen, Before, Ranked, Look;
    var q := BeforeChoice(p, cpu, rows, luck);
    RoomExactly(p, cpu, rows, luck);
    forall c
      ensures c in Eligible(q, rows, exclude) && c.cpu >= p.settings.minProcessCpuPercent <==>
        MayBeChosen(p, rows, exclude, c)
    {
      MayBeChosenExactly(p, cpu, rows, exclude, luck, c);
    }
  }

  lemma RoomExactly(p: Protector, cpu: real, rows: seq<Row>, luck: Answers)
    ensures var q := BeforeChoice(p, cpu, rows, luck);
      q.throttled.Keys == (set k | k in p.throttled && !Look(p.procs, k).exited) &&
      |q.throttled| == |q.throttled.Keys| && q.exempt == p.exempt * Pids(rows) && q.settings == p.settings
  {
    hide Updated;
  }

  lemma MayBeChosenExactly(p: Protector, cpu: real, rows: seq<Row>, exclude: (string, Pid) -> bool, luck: Answers,
                           c: Candidate)
    ensures MayBeChosen(p, rows, exclude, c) <==>
      c in Eligible(BeforeChoice(p, cpu, rows, luck), rows, exclude) && c.cpu >= p.settings.minProcessCpuPercent
  {
    hide BeforeChoice, Eligible, Look;
    RoomExactly(p, cpu, rows, luck);
    EligibleExactly(BeforeChoice(p, cpu, rows, luck), rows, exclude, c);
    PidsExactly(rows, c.pid);
  }

  lemma PidsExactly(rows: seq<Row>, k: Pid)
    ensures k in Pids(rows) <==> exists row :: row in rows && row.pid == k
  {
  }

  /** When load is back to normal everything throttled is given back, and exemptions stay. */
  lemma CalmTickExactly(p: Protector, cpu: real, rows: seq<Row>, luck: Answers, chosen: seq<Candidate>, k: Pid)
    requires p.settings.enabled && !Elevated(p, cpu)
    ensures var r, q := Ticked(p, cpu, rows, luck, chosen), Look(p.procs, k);
      r.throttled == map[] && r.exempt == p.exempt &&
      (k in p.procs ==> k in r.procs) &&
      Look(r.procs, k) ==
        if k in p.procs && k in p.throttled && !q.exited && luck(k).sets
        then q.(priority := p.throttled[k].original) else q
  {
    hide Updated;
    RestoredNone(Forgotten(p).(level := Updated(p.level, cpu, p.settings)), luck);
  }

  // ------------------------------------------------------------ whole runs

  datatype Step =
    | Tick(cpu: real, rows: seq<Row>, exclude: (string, Pid) -> bool, luck: Answers, chosen: seq<Candidate>)
    | Configure(settings: Settings, luck: Answers)
    | Exempt(pid: Pid, luck: Answers)
    | RestoreAll(luck: Answers)
    | Exits(pid: Pid)
    | Created(pid: Pid, q: Proc)

  /** Restores succeed (lowering need not), and a pid is not used again while its process is held. */
  ghost predicate Enabled(p: Protector, s: Step) {
    match s
    case Tick(cpu, rows, exclude, luck, chosen) =>
      OnePerPid(rows) && (!Elevated(p, cpu) ==> Restores(p, luck)) && RightChoice(p, cpu, rows, exclude, luck, chosen)
    case Configure(settings, luck) => settings.enabled || Restores(p, luck)
    case Exempt(pid, luck) => pid in p.throttled ==> luck(pid).sets
    case RestoreAll(luck) => Restores(p, luck)
    case Exits(pid) => pid in p.procs
    case Created(pid, q) => pid !in p.throttled && q.priority == q.original
  }

  function Taken(p: Protector, s: Step): Protector {
    match s
    case Tick(cpu, rows, exclude, luck, chosen) => Ticked(p, cpu, rows, luck, chosen)
    case Configure(settings, luck) => Configured(p, settings, luck)
    case Exempt(pid, luck) => Exempted(p, pid, luck)
    case RestoreAll(luck) => Restored(p, p.throttled.Keys, luck)
    case Exits(pid) => p.(procs := p.procs[pid := Look(p.procs, pid).(exited := true)])
    case Created(pid, q) => p.(procs := p.procs[pid := q])
  }

  ghost function Exec(start: Protector, steps: seq<Step>): Option<Protector> {
    if steps == [] then Some(start)
    else
      match Exec(start, steps[..|steps| - 1])
      case None => None
      case Some(p) => if Enabled(p, steps[|steps| - 1]) then Some(Taken(p, steps[|steps| - 1])) else None
  }

  /** Nothing is throttled or exempt, and every process is on the priority it came with. */
  predicate Initial(p: Protector) {
    p.throttled == map[] && p.exempt == {} && p.level == CALM &&
    forall pid :: pid in p.procs ==> p.procs[pid].exited || p.procs[pid].priority == p.procs[pid].original
  }

  lemma RestoreAllKeeps(p: Protector, luck: Answers)
    requires Reversible(p) && Restores(p, luck)
    ensures var r := Restored(p, p.throttled.Keys, luck);
      Reversible(r) && r.throttled == map[] && r.settings == p.settings && r.level == p.level
  {
    assert p.throttled - p.throttled.Keys == map[];
  }

  lemma ConfigureKeeps(p: Protector, s: Settings, luck: Answers)
    requires Inv(p) && (s.enabled || Restores(p, luck))
    ensures Inv(Configured(p, s, luck)) && (!s.enabled ==> Configured(p, s, luck).throttled == map[])
    ensures Configured(p, s, luck).throttled == p.throttled || Configured(p, s, luck).throttled == map[]
  {
    var q := p.(settings := s);
    if !s.enabled {
      RestoreAllKeeps(q, luck);
    }
  }

  lemma ExemptKeeps(p: Protector, pid: Pid, luck: Answers)
    requires Inv(p) && (pid in p.throttled ==> luck(pid).sets)
    ensures Inv(Exempted(p, pid, luck)) && pid !in Exempted(p, pid, luck).throttled
    ensures Exempted(p, pid, luck).throttled.Keys <= p.throttled.Keys
  {
    assert p.throttled == map[] ==> p.throttled - {pid} == map[];
  }

  lemma StepKeeps(p: Protector, s: Step)
    requires Inv(p) && Enabled(p, s)
    ensures Inv(Taken(p, s))
  {
    hide RightChoice, OnePerPid, Ticked, Configured, Exempted, Restored;
    match s
    case Tick(cpu, rows, exclude, luck, chosen) => TickKeeps(p, cpu, rows, exclude, luck, chosen);
    case Configure(settings, luck) => ConfigureKeeps(p, settings, luck);
    case Exempt(pid, luck) => ExemptKeeps(p, pid, luck);
    case RestoreAll(luck) => RestoreAllKeeps(p, luck);
    case Exits(_) =>
    case Created(_, _) =>
  }

  /**
   Auto-protect is reversible: at every point of every run each live process that is not throttled has
   the priority it came with, each that is sits strictly below it with that priority remembered, no
   exempt process is throttled, and on the normal level or when switched off nothing is throttled.
   */
  lemma {:induction false} AlwaysReversible(start: Protector, steps: seq<Step>)
    requires Initial(start) && Exec(start, steps).Some?
    ensures Inv(Exec(start, steps).value)
  {
    if steps != [] {
      AlwaysReversible(start, steps[..|steps| - 1]);
      StepKeeps(Exec(start, steps[..|steps| - 1]).value, steps[|steps| - 1]);
    }
  }

  /** This step samples the process table, and the process is in it. */
  predicate IsSeen(p: Protector, s: Step, pid: Pid) {
    s.Tick? && Elevated(p, s.cpu) ==> exists row :: row in s.rows && row.pid == pid
  }

  lemma StepKeepsExemption(p: Protector, s: Step, pid: Pid)
    requires Inv(p) && Enabled(p, s) && pid in p.exempt && IsSeen(p, s, pid)
    ensures pid in Taken(p, s).exempt
  {
    hide RightChoice, OnePerPid, Ticked, Reversible;
    if s.Tick? {
      if Elevated(p, s.cpu) {
        EntriesArePresent(p);
        TickExactly(p, s.cpu, s.rows, s.exclude, s.luck, s.chosen, pid);
      } else if p.settings.enabled {
        CalmTickExactly(p, s.cpu, s.rows, s.luck, s.chosen, pid);
      } else {
        OffTickDoesNothing(p, s.cpu, s.rows, s.luck, s.chosen);
      }
    }
  }

  lemma OffTickDoesNothing(p: Protector, cpu: real, rows: seq<Row>, luck: Answers, chosen: seq<Candidate>)
    requires !p.settings.enabled
    ensures Ticked(p, cpu, rows, luck, chosen) == p
  {
  }

  lemma EntriesArePresent(p: Protector)
    requires Reversible(p)
    ensures forall pid :: pid in p.throttled ==> pid in p.procs
  {
  }

  /**
   An exemption lasts: a process that was exempted in step n, and was in the table whenever one was
   sampled under load since, is exempt and not throttled in every later state.
   */
  lemma {:induction false} ExemptionLasts(start: Protector, steps: seq<Step>, n: nat, pid: Pid)
    requires Initial(start) && Exec(start, steps).Some? && n < |steps| && steps[n].Exempt? && steps[n].pid == pid
    requires forall m :: n < m < |steps| && Exec(start, steps[..m]).Some? ==>
      IsSeen(Exec(start, steps[..m]).value, steps[m], pid)
    ensures var p := Exec(start, steps).value; pid in p.exempt && pid !in p.throttled
  {
    hide Enabled, IsSeen, Taken;
    var last := |steps| - 1;
    var init := steps[..last];
    AlwaysReversible(start, init);
    AlwaysReversible(start, steps);
    if n < last {
      assert forall m :: n < m < last ==> init[..m] == steps[..m] && init[m] == steps[m];
      ExemptionLasts(start, init, n, pid);
      StepKeepsExemption(Exec(start, init).value, steps[last], pid);
    } else {
      ExemptNow(Exec(start, init).value, steps[n]);
    }
  }

  lemma ExemptNow(p: Protector, s: Step)
    requires s.Exempt?
    ensures s.pid in Taken(p, s).exempt
  {
  }

  ghost predicate LimitFixed(steps: seq<Step>, max: nat) {
    forall i :: 0 <= i < |steps| && steps[i].Configure? ==> steps[i].settings.maxProcesses == max
  }

  /** For a fixed limit there are never more than that many throttled processes. */
  lemma {:induction false} NeverAboveLimit(start: Protector, steps: seq<Step>, max: nat)
    requires Initial(start) && Exec(start, steps).Some? && start.settings.maxProcesses == max && LimitFixed(steps, max)
    ensures |Exec(start, steps).value.throttled| <= max && Exec(start, steps).value.settings.maxProcesses == max
  {
    hide RightChoice, OnePerPid, Ticked, Inv, Restores;
    if steps != [] {
      var init, s := steps[..|steps| - 1], steps[|steps| - 1];
      NeverAboveLimit(start, init, max);
      AlwaysReversible(start, init);
      var p := Exec(start, init).value;
      match s
      case Tick(cpu, rows, exclude, luck, chosen) => TickKeeps(p, cpu, rows, exclude, luck, chosen);
      case Configure(settings, luck) => ConfigureKeeps(p, settings, luck);
      case Exempt(pid, luck) =>
        ExemptKeeps(p, pid, luck);
        Smaller(Exempted(p, pid, luck).throttled.Keys, p.throttled.Keys);
      case RestoreAll(luck) => assert p.throttled - p.throttled.Keys == map[];
      case Exits(_) =>
      case Created(_, _) =>
    }
  }

  /** After a last restore every live process is back on the priority it came with. */
  lemma EveryoneIsGivenBack(start: Protector, steps: seq<Step>, luck: Answers)
    requires Initial(start) && Exec(start, steps + [RestoreAll(luck)]).Some?
    ensures var procs := Exec(start, steps + [RestoreAll(luck)]).value.procs;
      forall pid :: pid in procs ==> procs[pid].exited || procs[pid].priority == procs[pid].original
  {
    hide Enabled;
    AlwaysReversible(start, steps + [RestoreAll(luck)]);
    assert (steps + [RestoreAll(luck)])[..|steps|] == steps;
    var p := Exec(start, steps).value;
    assert p.throttled - p.throttled.Keys == map[];
  }

  // ------------------------------------------------------------- the code

  lemma RestoreMore(p: Protector, done: set<Pid>, pid: Pid, luck: Answers)
    requires pid in p.throttled && pid !in done
    ensures Restored(Restored(p, done, luck), {pid}, luck) == Restored(p, done + {pid}, luck)
  {
    var q := Restored(p, done, luck);
    var u, v := Restored(q, {pid}, luck), Restored(p, done + {pid}, luck);
    assert u.throttled == v.throttled;
    assert u.procs == v.procs;
  }

  lemma RestoreNone(p: Protector, luck: Answers)
    ensures Restored(p, {}, luck) == p
  {
    assert Restored(p, {}, luck).throttled == p.throttled && Restored(p, {}, luck).procs == p.procs;
  }

  lemma EscalateMore(p: Protector, done: set<Pid>, pid: Pid, target: Priority, luck: Answers)
    requires pid in p.throttled && pid !in done
    ensures Escalated(Escalated(p, done, target, luck), {pid}, target, luck) == Escalated(p, done + {pid}, target, luck)
  {
    var q := Escalated(p, done, target, luck);
    var u, v := Escalated(q, {pid}, target, luck), Escalated(p, done + {pid}, target, luck);
    assert u.throttled == v.throttled;
    assert u.procs == v.procs;
  }

  lemma EscalatedOne(p: Protector, pid: Pid, target: Priority, luck: Answers)
    requires pid in p.throttled
    ensures Escalated(p, {pid}, target, luck) ==
            if !CanSink(p.throttled[pid], target, luck(pid)) then p
            else p.(throttled := p.throttled[pid := p.throttled[pid].(current := target)],
                    procs := Put(p.procs, pid, Look(p.procs, pid).(priority := target)))
  {
    var q := Escalated(p, {pid}, target, luck);
    if CanSink(p.throttled[pid], target, luck(pid)) {
      assert q.throttled == p.throttled[pid := p.throttled[pid].(current := target)];
      assert q.procs == Put(p.procs, pid, Look(p.procs, pid).(priority := target));
    } else {
      assert q.throttled == p.throttled && q.procs == p.procs;
    }
  }

  lemma EscalateNone(p: Protector, target: Priority, luck: Answers)
    ensures Escalated(p, {}, target, luck) == p
  {
    var q := Escalated(p, {}, target, luck);
    assert q.throttled == p.throttled && q.procs == p.procs;
  }

  function Answer(c: Calls): PriorityChangeResult {
    if c.sets then Success else AccessDenied
  }

  class AutoProtector {
    const os: Os
    const state: AutoProtectState
    var settings: Settings
    var throttled: map<Pid, Entry>
    var exempt: set<Pid>

    function Abs(): Protector
      reads this, os, state
    {
      Protector(settings, state.Abs(), throttled, exempt, os.procs)
    }

    constructor (settings: Settings, os: Os)
      ensures this.os == os && fresh(state) && Abs() == Protector(settings, CALM, map[], {}, os.procs)
    {
      this.settings, this.os := settings, os;
      state := new AutoProtectState();
      throttled, exempt := map[], {};
    }

    method Restore(pid: Pid, luck: Answers)
      requires pid in throttled
      modifies this`throttled, os
      ensures Abs() == Restored(old(Abs()), {pid}, luck)
    {
      var e := throttled[pid];
      if !Look(os.procs, pid).exited {
        var _ := os.SetProcessPriority(pid, e.original, Answer(luck(pid)));
      }
      throttled := throttled - {pid};
      assert os.procs == Restored(old(Abs()), {pid}, luck).procs;
    }

    method RestoreAll(luck: Answers)
      modifies this`throttled, os
      ensures Abs() == Restored(old(Abs()), old(throttled).Keys, luck)
    {
      hide Restored;
      ghost var p, done := Abs(), {};
      RestoreNone(p, luck);
      while throttled != map[]
        invariant Abs() == Restored(p, done, luck) && done <= p.throttled.Keys
        decreases p.throttled.Keys - done
      {
        var pid :| pid in throttled;
        RestoreMore(p, done, pid, luck);
        Restore(pid, luck);
        done := done + {pid};
      }
      assert throttled.Keys == {};
      assert done == p.throttled.Keys;
    }

    method DropExited()
      modifies this`throttled
      ensures Abs() == Forgotten(old(Abs()))
    {
      var todo := throttled.Keys;
      while todo != {}
        invariant todo <= throttled.Keys
        invariant throttled == old(throttled) - (ExitedEntries(old(Abs())) - todo)
      {
        var pid :| pid in todo;
        if Look(os.procs, pid).exited { throttled := throttled - {pid}; }
        todo := todo - {pid};
      }
    }

    /** Drops exemptions of processes that are gone. */
    method DropExemptions(rows: seq<Row>)
      modifies this`exempt
      ensures Abs() == Pruned(old(Abs()), rows)
    {
      var todo := exempt;
      while todo != {}
        invariant todo <= exempt && exempt == old(exempt) - (old(exempt) - todo - Pids(rows))
      {
        var pid :| pid in todo;
        if pid !in Pids(rows) { exempt := exempt - {pid}; }
        todo := todo - {pid};
      }
    }

    method Escalate(target: Priority, luck: Answers)
      modifies this`throttled, os
      ensures Abs() == Escalated(old(Abs()), old(throttled).Keys, target, luck)
    {
      hide Escalated;
      ghost var p, done := Abs(), {};
      var todo := throttled.Keys;
      EscalateNone(p, target, luck);
      while todo != {}
        invariant Abs() == Escalated(p, done, target, luck) && done + todo == p.throttled.Keys == throttled.Keys &&
          done !! todo
      {
        var pid :| pid in todo;
        EscalateMore(p, done, pid, target, luck);
        EscalateOne(pid, target, luck);
        done := done + {pid};
        todo := todo - {pid};
      }
      assert done == p.throttled.Keys;
    }

    method EscalateOne(pid: Pid, target: Priority, luck: Answers)
      requires pid in throttled
      modifies this`throttled, os
      ensures Abs() == Escalated(old(Abs()), {pid}, target, luck) && throttled.Keys == old(throttled).Keys
    {
      hide Escalated;
      var e := throttled[pid];
      if Rank(e.current) > Rank(target) {
        var answer := os.SetProcessPriority(pid, target, Answer(luck(pid)));
        if answer.Success? { throttled := throttled[pid := e.(current := target)]; }
      }
      EscalatedOne(old(Abs()), pid, target, luck);
    }

    method Lower(pid: Pid, target: Priority, c: Calls) returns (lowered: bool)
      modifies this`throttled, os
      ensures Abs() == Lowered(old(Abs()), pid, target, c) && lowered == CanLower(old(Abs()), pid, target, c)
    {
      var q := Look(os.procs, pid);
      if !c.opens || q.exited { return false; }
      if Rank(q.priority) <= Rank(target) { return false; }
      var answer := os.SetProcessPriority(pid, target, Answer(c));
      if !answer.Success? { return false; }
      if pid !in throttled { throttled := throttled[pid := Entry(q.priority, target)]; }
      lowered := true;
    }

    method LowerEach(chosen: seq<Candidate>, target: Priority, luck: Answers)
      modifies this`throttled, os
      ensures Abs() == LoweredAll(old(Abs()), chosen, target, luck)
    {
      hide Lowered;
      assert chosen[..0] == [];
      for i := 0 to |chosen|
        invariant Abs() == LoweredAll(old(Abs()), chosen[..i], target, luck)
      {
        assert chosen[..i + 1][..i] == chosen[..i];
        var _ := Lower(chosen[i].pid, target, luck(chosen[i].pid));
      }
      assert chosen[..|chosen|] == chosen;
    }

    method Candidates(rows: seq<Row>, exclude: (string, Pid) -> bool) returns (e: seq<Candidate>)
      ensures e == Eligible(Abs(), rows, exclude)
    {
      e := [];
      assert rows[..0] == [];
      for i := 0 to |rows|
        invariant e == Eligible(Abs(), rows[..i], exclude)
      {
        var r := rows[i];
        assert rows[..i + 1][..i] == rows[..i];
        if !r.accessible || !r.ordinary { continue; }
        if r.pid in throttled || r.pid in exempt { continue; }
        if exclude(r.name, r.pid) { continue; }
        e := e + [Candidate(r.pid, r.name, r.cpu)];
      }
      assert rows[..|rows|] == rows;
    }

    method Tick(cpu: real, rows: seq<Row>, exclude: (string, Pid) -> bool, luck: Answers)
      returns (ghost chosen: seq<Candidate>)
      requires OnePerPid(rows)
      modifies this`throttled, this`exempt, state, os
      ensures RightChoice(old(Abs()), cpu, rows, exclude, luck, chosen)
      ensures Abs() == Ticked(old(Abs()), cpu, rows, luck, chosen)
    {
      hide IsTop, Eligible, Restored, Escalated, LoweredAll, Updated, OnePerPid;
      chosen := [];
      if !settings.enabled { return; }
      DropExited();
      var level := state.Update(cpu, settings);
      if level.NormalLevel? {
        RestoreAll(luck);
        return;
      }
      DropExemptions(rows);
      Escalate(TargetOf(level), luck);
      assert Abs() == BeforeChoice(old(Abs()), cpu, rows, luck);
      chosen := Choose(rows, exclude, TargetOf(level), luck);
    }

    /** Adds the heaviest eligible processes, up to the limit. */
    method Choose(rows: seq<Row>, exclude: (string, Pid) -> bool, target: Priority, luck: Answers)
      returns (ghost chosen: seq<Candidate>)
      requires OnePerPid(rows)
      modifies this`throttled, os
      ensures IsTop(chosen, Eligible(old(Abs()), rows, exclude), settings.minProcessCpuPercent, Slots(old(Abs())))
      ensures Abs() == LoweredAll(old(Abs()), chosen, target, luck)
    {
      chosen := [];
      if |throttled| < settings.maxProcesses {
        var eligible := Candidates(rows, exclude);
        EligibleDistinct(Abs(), rows, exclude);
        var targets := SelectAutoTargets(eligible, settings.minProcessCpuPercent, settings.maxProcesses - |throttled|);
        LowerEach(targets, target, luck);
        chosen := targets;
      }
    }

    method Configure(s: Settings, luck: Answers)
      modifies this`settings, this`throttled, state, os
      ensures Abs() == Configured(old(Abs()), s, luck)
    {
      hide Restored;
      settings := s;
      assert Abs() == old(Abs()).(settings := s);
      if !settings.enabled {
        RestoreAll(luck);
        state.Reset();
      }
    }

    /** Processes that became configured are no longer auto-protect's. */
    method ExemptAll(pids: set<Pid>, luck: Answers)
      requires pids <= throttled.Keys
      modifies this`throttled, this`exempt, os
      ensures Abs() == Excused(old(Abs()), pids, luck)
    {
      hide Excused;
      ghost var p, done := Abs(), {};
      var todo := pids;
      ExcuseNone(p, luck);
      while todo != {}
        invariant Abs() == Excused(p, done, luck) && done + todo == pids && done !! todo
      {
        var pid :| pid in todo;
        ExcuseMore(p, done, pid, luck);
        var _ := Exempt(pid, luck);
        done := done + {pid};
        todo := todo - {pid};
      }
      assert done == pids;
    }

    /** The answer does not depend on whether there is such a process. */
    method Exempt(pid: Pid, luck: Answers) returns (ok: bool)
      modifies this`throttled, this`exempt, os
      ensures ok && Abs() == Exempted(old(Abs()), pid, luck)
    {
      if pid in throttled {
        Restore(pid, luck);
      } else {
      }
      exempt := exempt + {pid};
      ok := true;
    }
  }

  lemma ExcuseMore(p: Protector, done: set<Pid>, pid: Pid, luck: Answers)
    requires pid in p.throttled && pid !in done
    ensures Exempted(Excused(p, done, luck), pid, luck) == Excused(p, done + {pid}, luck)
  {
    RestoreMore(p, done, pid, luck);
    var q, u := Restored(p, done, luck), Excused(p, done, luck);
    assert Restored(u, {pid}, luck).procs == Restored(q, {pid}, luck).procs;
    assert Restored(u, {pid}, luck).throttled == Restored(q, {pid}, luck).throttled;
    assert p.exempt + done + {pid} == p.exempt + (done + {pid});
  }

  lemma ExcuseNone(p: Protector, luck: Answers)
    ensures Excused(p, {}, luck) == p
  {
    RestoreNone(p, luck);
    assert p.exempt + {} == p.exempt;
  }

}
